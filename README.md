# ClientManager, modelled in Dafny

ClientManager is a Spring Boot back end that keeps a table of customer records and a table of users. It has three parts:
- **Customer operations.** Create, update, list, get and delete, behind `/api/customers`.
- **A synchronisation step.** It logs in to an upstream service, fetches that service's customer list and inserts the records whose uuid is not yet stored.
- **A stateless security chain.** A token validator, HTTP Basic authentication, a token generator on the login path and a fixed access rule.

This project models those parts as Dafny values, functions and classes, and proves what the code promises about them.

- **Customer table.** It is a `map` from uuid to record (`CustomerRepositories`). The repository class owns the map and performs JPA's `save`, `saveAll`, `existsById`, `findById` and `deleteById` on it. The four `@Query` finders are filters over the map.
- **Customer service.** `CustomerService` comes in two parts:
  - pure specification functions (`CreateOp`, `UpdateOp`, `GetCustomerById`, `DeleteOp`, `GetAllCustomers`, `Delta`, `SyncSpec`);
  - a `CustomerServiceImpl` class whose methods change the repository and are proved equal to those functions.
- **Sync delta.** `SyncData` builds the delta with the same loop the source has.
- **Upstream calls.** `RemoteApi` gives the decision logic of `getToken` and `fetchCustomersFromRemoteApi` over abstract replies. The network is a function parameter from what is sent to what comes back.
- **Users.** The `User` entity's constraints are a validity predicate (`Users`). The user table is a sequence whose row `i` carries the id `i + 1`, a simplification of the database's identity column (see `Users.SaveUserOp` under "## Left out"). Its `save` keeps ids, validity and unique emails.
- **Authentication.** `AuthService`, `AuthController` and `CustomerUserDetailsService` model registration (encode, then store), the login echo and the loading of user details with the `ROLE_` authority.
- **Tokens.**
  - `Jwt` holds the token payload and an abstract codec: a pair of functions `sign` and `parse`. A *sound* codec parses back exactly what it signed under the same key.
  - `JwtTokenGeneratorFilter` builds the claims and writes the header.
  - `JwtTokenValidatorFilter` strips `Bearer `, parses, rebuilds the principal and maps any failure to `BadCredentialsException`.
  - Validating a generated token returns the principal's name and its distinct authorities.
- **Principals.** `Authentications` tells the two principals apart: the plain user name a token carries, and the `UserDetails` that HTTP Basic authentication loads. `getName()` is the user name for both, but `toString()` of the second is Spring's `User` description.
- **Security chain.** `SecurityConfig` holds the access rule table and the filter order. A request carries one map of headers:
  - the validator reads the token header, whose name is the parameter `jwtHeader`;
  - HTTP Basic authentication reads `Authorization`, as Spring's converter does (trim, the "Basic" scheme in any case, decode, split at the first ':').
  - The client sends both its Basic credentials and its token in `Authorization` (`LoginForm.jsx:23`, `CustomerManagement.jsx:48`). The lemmas that assume `jwtHeader == "Authorization"` describe that deployment: off the login path a Basic header is then read as a token and rejected.
  - The module composes the filters into the whole chain for one request, and proves a log-in-then-use-the-token round trip.
- **Controllers and error handler.** `CustomerController` and `GlobalExceptionHandler` give each endpoint its status code, and map every exception that escapes to a 400 body.

The model follows the code, including where it behaves differently from what one might expect:
- A request without a token header is not an error in the validator. It passes through unauthenticated (`JwtTokenValidatorFilter.java:38`). It is challenged only later, by the access rule, and only on paths that need authentication.
- An invalid token, by contrast, stops the request even on the two permitted paths.

## Model

| member | source | states |
|---|---|---|
| CustomerModel.CopyRoundTrip | ClientManager/src/main/java/com/sunbase/clientmanager/service/CustomerServiceImpl.java:191-194 | copying a remote record into a `Customer` field by field loses nothing: the copy is a bijection onto entities |
| CustomerRepositories.FindBy | ClientManager/src/main/java/com/sunbase/clientmanager/repository/CustomerRepository.java:22-53 | a finder returns exactly the records whose chosen field equals the value, compared exactly and case-sensitively, each under its own key; a null field matches nothing |
| CustomerRepositories.FindByFirstName | ClientManager/src/main/java/com/sunbase/clientmanager/repository/CustomerRepository.java:22-23 | exactly the records with `firstName == v`, a sub-table of the store |
| CustomerRepositories.FindByCity | ClientManager/src/main/java/com/sunbase/clientmanager/repository/CustomerRepository.java:32-33 | exactly the records with `city == v`, a sub-table of the store |
| CustomerRepositories.FindByEmail | ClientManager/src/main/java/com/sunbase/clientmanager/repository/CustomerRepository.java:42-43 | exactly the records with `email == v`, a sub-table of the store |
| CustomerRepositories.FindByPhone | ClientManager/src/main/java/com/sunbase/clientmanager/repository/CustomerRepository.java:52-53 | exactly the records with `phone == v`, a sub-table of the store |
| CustomerRepositories.FindByDisjoint | ClientManager/src/main/java/com/sunbase/clientmanager/repository/CustomerRepository.java:22-53 | two different search values select disjoint sets of records |
| CustomerRepositories.FindByFindsOwnValue | ClientManager/src/main/java/com/sunbase/clientmanager/repository/CustomerRepository.java:22-53 | every record whose field is set is found when searching for that field's value |
| CustomerRepositories.FindByIsCaseSensitive | ClientManager/src/main/java/com/sunbase/clientmanager/repository/CustomerRepository.java:22-23 | the match is not case-insensitive: "alice" does not find a record holding "Alice" |
| CustomerRepositories.SaveOp | ClientManager/src/main/java/com/sunbase/clientmanager/service/CustomerServiceImpl.java:72 | `save` of an identified entity stores it under its id, inserting or overwriting, and changes no other key; a null id is refused with the table unchanged |
| CustomerRepositories.StoreAllFrame | ClientManager/src/main/java/com/sunbase/clientmanager/service/CustomerServiceImpl.java:204 | saving a batch adds exactly the batch's keys, leaves every other record alone, keeps every record under its own uuid, and each new key holds one of the batch's entities |
| CustomerRepositories.SaveAllOp | ClientManager/src/main/java/com/sunbase/clientmanager/service/CustomerServiceImpl.java:204 | `saveAll` is one transaction: an entity without id rolls the whole batch back, otherwise the batch is stored in order |
| CustomerRepositories.CustomerRepository.ExistsById | ClientManager/src/main/java/com/sunbase/clientmanager/service/CustomerServiceImpl.java:87 | `existsById` is true exactly when the key is stored |
| CustomerRepositories.CustomerRepository.FindById | ClientManager/src/main/java/com/sunbase/clientmanager/service/CustomerServiceImpl.java:143 | `findById` returns the stored record, or nothing when the key is absent |
| CustomerRepositories.CustomerRepository.Save | ClientManager/src/main/java/com/sunbase/clientmanager/service/CustomerServiceImpl.java:72 | the method's result and new table are those of `SaveOp` on the old table; the uuid-keyed invariant is kept |
| CustomerRepositories.CustomerRepository.SaveAll | ClientManager/src/main/java/com/sunbase/clientmanager/service/CustomerServiceImpl.java:204 | the write loop ends with the result and table of `SaveAllOp` on the old table, the invariant kept |
| CustomerRepositories.CustomerRepository.DeleteById | ClientManager/src/main/java/com/sunbase/clientmanager/service/CustomerServiceImpl.java:161 | the key is gone and nothing else changes |
| CustomerService.CustomerKey | ClientManager/src/main/java/com/sunbase/clientmanager/service/CustomerServiceImpl.java:62-66 | the key is "test" followed by the random UUID with every hyphen removed: the prefix, no hyphen after it, and the length that implies |
| CustomerService.CanonicalUuidKey | ClientManager/src/main/java/com/sunbase/clientmanager/service/CustomerServiceImpl.java:63-66 | for a canonical random UUID the key has 36 characters, all lower-case hexadecimal after the prefix |
| CustomerService.CreateOp | ClientManager/src/main/java/com/sunbase/clientmanager/service/CustomerServiceImpl.java:61-73 | the created record is the submitted one under the generated key; it is stored under that key and every other record is unchanged |
| CustomerService.CreateIgnoresClientUuid | ClientManager/src/main/java/com/sunbase/clientmanager/service/CustomerServiceImpl.java:69 | a uuid the client supplied makes no difference to what is created or stored |
| CustomerService.UpdateOp | ClientManager/src/main/java/com/sunbase/clientmanager/service/CustomerServiceImpl.java:84-93 | an absent key fails with the not-found message and no change; a present key gets the submitted fields under exactly that uuid, nothing else touched |
| CustomerService.GetCustomerById | ClientManager/src/main/java/com/sunbase/clientmanager/service/CustomerServiceImpl.java:139-145 | a null id fails with the null-id message, an absent key with the not-found message, otherwise the stored record comes back unchanged |
| CustomerService.DeleteOp | ClientManager/src/main/java/com/sunbase/clientmanager/service/CustomerServiceImpl.java:154-162 | a null id and an absent key fail with their messages and no change; otherwise only that key is removed |
| CustomerService.GetAfterWrite | ClientManager/src/main/java/com/sunbase/clientmanager/service/CustomerServiceImpl.java:61-93 | reading back after a create or an update returns exactly what was written |
| CustomerService.GetAfterDelete | ClientManager/src/main/java/com/sunbase/clientmanager/service/CustomerServiceImpl.java:154-162 | reading a deleted key fails with the not-found message |
| CustomerService.GetAllCustomers | ClientManager/src/main/java/com/sunbase/clientmanager/service/CustomerServiceImpl.java:105-128 | fails with the paging message exactly when `page < 0` or `size <= 0`; otherwise it follows the `switch` on the lower-cased sort key: the four names choose their exact-match finder, any other name the whole table. What `Sort.by` does with the key is not modelled |
| CustomerService.GetAllIgnoresCase | ClientManager/src/main/java/com/sunbase/clientmanager/service/CustomerServiceImpl.java:115 | the finder the `switch` chooses depends on the sort key only up to case: keys equal up to case select the same records |
| CustomerService.SortFieldCases | ClientManager/src/main/java/com/sunbase/clientmanager/service/CustomerServiceImpl.java:115-126 | for every sort key: it reaches a finder exactly when its lower-cased form is one of "firstname", "city", "email", "phone", and each of those labels selects its own finder |
| CustomerService.SortFieldTable | ClientManager/src/main/java/com/sunbase/clientmanager/service/CustomerServiceImpl.java:115-126 | the `switch` sends "firstName", "FIRSTNAME", "City", "email" and "PHONE" to a finder, and "uuid" and "lastName" to the default; this is the dispatch, not the reply to a key `Sort.by` rejects |
| CustomerService.LocalUuidsOfKeyedTable | ClientManager/src/main/java/com/sunbase/clientmanager/service/CustomerServiceImpl.java:182-185 | the snapshot set of local uuids is exactly the table's keys |
| CustomerService.Delta | ClientManager/src/main/java/com/sunbase/clientmanager/service/CustomerServiceImpl.java:188-197 | the delta is no longer than the remote list and holds no record whose uuid is local |
| CustomerService.DeltaAppend | ClientManager/src/main/java/com/sunbase/clientmanager/service/CustomerServiceImpl.java:189-197 | the delta of a concatenation is the concatenation of the deltas, so remote order is kept |
| CustomerService.DeltaMembers | ClientManager/src/main/java/com/sunbase/clientmanager/service/CustomerServiceImpl.java:189-197 | a record is in the delta exactly when it is the copy of a remote entry whose uuid is not local |
| CustomerService.DeltaEmptyWhenKnown | ClientManager/src/main/java/com/sunbase/clientmanager/service/CustomerServiceImpl.java:190 | when every remote uuid is already local the delta is empty |
| CustomerService.SyncMerge | ClientManager/src/main/java/com/sunbase/clientmanager/service/CustomerServiceImpl.java:182-206 | local records are never changed. An empty delta fails with "No Customers to update" and no write. A delta entry with a null uuid rolls the batch back. Otherwise the table gains exactly the delta's keys, each holding a remote entry, and the message is the delta's length followed by " customers added successfully" |
| CustomerService.SyncTwiceFails | ClientManager/src/main/java/com/sunbase/clientmanager/service/CustomerServiceImpl.java:182-201 | a second sync with the same remote list over the result of the first fails with "No Customers to update" and changes nothing |
| CustomerService.SyncUpstreamFailures | ClientManager/src/main/java/com/sunbase/clientmanager/service/CustomerServiceImpl.java:173-182 | a reply without `access_token` fails under the generic token prefix; a null or empty list fails under the generic fetch prefix; either way the table is neither read nor written |
| CustomerService.BasicPrincipalSyncLoginId | ClientManager/src/main/java/com/sunbase/clientmanager/service/CustomerServiceImpl.java:172-176 | for a principal that HTTP Basic authentication loaded, the login id sent upstream is the principal's `toString()`, not its email: the payload differs from the one for the email, and sync behaves as for a plain principal of that text |
| CustomerService.SyncSpecByText | ClientManager/src/main/java/com/sunbase/clientmanager/service/CustomerServiceImpl.java:172-176 | sync depends on the caller only through the principal's string form: two principals that print the same synchronise the same |
| CustomerService.SyncExample | ClientManager/src/main/java/com/sunbase/clientmanager/service/CustomerServiceImpl.java:188-206 | with A and B stored and A, B, C, D fetched, sync reports "2 customers added successfully" and the table holds A, B, C, D |
| CustomerService.DuplicateDelta | ClientManager/src/main/java/com/sunbase/clientmanager/service/CustomerServiceImpl.java:189-197 | a remote uuid listed twice is copied into the delta twice |
| CustomerService.SyncCountsRemoteEntries | ClientManager/src/main/java/com/sunbase/clientmanager/service/CustomerServiceImpl.java:204-206 | the count reports remote entries, not distinct keys: two entries for C report 2 and store one key |
| CustomerService.SelectNewCustomers | ClientManager/src/main/java/com/sunbase/clientmanager/service/CustomerServiceImpl.java:188-197 | the loop builds exactly the delta of the remote list against the snapshot |
| CustomerService.CustomerServiceImpl.CreateCustomer | ClientManager/src/main/java/com/sunbase/clientmanager/service/CustomerServiceImpl.java:61-73 | the returned record and new table are those of `CreateOp` on the old table |
| CustomerService.CustomerServiceImpl.UpdateCustomer | ClientManager/src/main/java/com/sunbase/clientmanager/service/CustomerServiceImpl.java:84-93 | the result and new table are those of `UpdateOp` on the old table |
| CustomerService.CustomerServiceImpl.DeleteCustomer | ClientManager/src/main/java/com/sunbase/clientmanager/service/CustomerServiceImpl.java:154-162 | the result and new table are those of `DeleteOp` on the old table |
| CustomerService.CustomerServiceImpl.SyncData | ClientManager/src/main/java/com/sunbase/clientmanager/service/CustomerServiceImpl.java:170-207 | the result and new table are those of `SyncSpec` on the old table: the principal, the token exchange, the fetch, the snapshot, the delta, the batch write |
| RemoteApi.LoginPayload | ClientManager/src/main/java/com/sunbase/clientmanager/service/CustomerServiceImpl.java:261 | the payload is the fixed JSON template with the login id and the password pasted in unescaped, a null password written as `null` |
| RemoteApi.GetToken | ClientManager/src/main/java/com/sunbase/clientmanager/service/CustomerServiceImpl.java:259-298 | the token is the reply's `access_token`. A missing one fails as "Failed to retrieve token: Token not found in the response." A client error fails as the HTTP-error prefix followed by the error's message; any other failure as the generic prefix followed by its message, "null" when it has none |
| RemoteApi.FetchCustomersFromRemoteApi | ClientManager/src/main/java/com/sunbase/clientmanager/service/CustomerServiceImpl.java:219-250 | a non-empty list is returned as sent. A null or empty list fails under the generic fetch prefix. A client error fails as the HTTP-error prefix followed by the error's message; any other failure as the generic prefix followed by its message, "null" when it has none |
| RemoteApi.FetchPassesNonEmptyList | ClientManager/src/main/java/com/sunbase/clientmanager/service/CustomerServiceImpl.java:238-242 | a non-empty list always passes through unchanged |
| RemoteApi.LoginPayloadInjective | ClientManager/src/main/java/com/sunbase/clientmanager/service/CustomerServiceImpl.java:261 | without escaping, equal payloads still mean equal credentials as long as the login id holds no double quote |
| RemoteApi.LoginPayloadCollision | ClientManager/src/main/java/com/sunbase/clientmanager/service/CustomerServiceImpl.java:261 | for any a, b, c, the login id `a","password":"b` with password c and the login id a with password `b","password":"c` give one payload: a login id holding a quote forges the password field |
| RemoteApi.NullPasswordPrintsNull | ClientManager/src/main/java/com/sunbase/clientmanager/service/CustomerServiceImpl.java:261 | a null password and the password "null" are sent identically |
| CustomerController.CreateCustomerEndpoint | ClientManager/src/main/java/com/sunbase/clientmanager/controller/CustomerController.java:34-40 | 201 with the created customer, table as `CreateOp` leaves it |
| CustomerController.UpdateCustomerEndpoint | ClientManager/src/main/java/com/sunbase/clientmanager/controller/CustomerController.java:49-55 | 200 with the updated customer when the key exists, the service's not-found exception otherwise |
| CustomerController.GetAllCustomersEndpoint | ClientManager/src/main/java/com/sunbase/clientmanager/controller/CustomerController.java:65-75 | absent parameters take the defaults 0, 10, "uuid", ""; 200 with the service's selection or the paging exception |
| CustomerController.DefaultListingIsAll | ClientManager/src/main/java/com/sunbase/clientmanager/controller/CustomerController.java:66-70 | with every parameter left out the endpoint lists the whole table |
| CustomerController.GetCustomerByIdEndpoint | ClientManager/src/main/java/com/sunbase/clientmanager/controller/CustomerController.java:83-89 | 200 with the stored record when the key exists, the not-found exception otherwise |
| CustomerController.DeleteCustomerEndpoint | ClientManager/src/main/java/com/sunbase/clientmanager/controller/CustomerController.java:97-103 | 204 with no body when the key exists, the not-found exception otherwise |
| CustomerController.SyncDataEndpoint | ClientManager/src/main/java/com/sunbase/clientmanager/controller/CustomerController.java:110-116 | 200 with the service's message; a service exception is passed on uncaught |
| CustomerController.UnknownKeyAnswers400 | ClientManager/src/main/java/com/sunbase/clientmanager/exception/GlobalExceptionHandler.java:52-57 | for an unknown key, get, update and delete all answer 400 with the not-found message and the request description, and the table is unchanged |
| CustomerController.RepeatedSyncAnswers400 | ClientManager/src/main/java/com/sunbase/clientmanager/controller/CustomerController.java:110-116 | after a successful sync, syncing again with the same upstream replies answers 400 "No Customers to update" and writes nothing |
| GlobalExceptionHandler.HandlerFor | ClientManager/src/main/java/com/sunbase/clientmanager/exception/GlobalExceptionHandler.java:22-57 | the most specific handler is chosen: one per declared exception class, the `Exception` handler for the rest |
| GlobalExceptionHandler.Handle | ClientManager/src/main/java/com/sunbase/clientmanager/exception/GlobalExceptionHandler.java:22-57 | every exception is answered 400 with its message, the request description `uri=...` and the time |
| GlobalExceptionHandler.Reply | ClientManager/src/main/java/com/sunbase/clientmanager/exception/GlobalExceptionHandler.java:15-57 | a controller's entity reaches the client when it returns; when it throws, the client gets a 400 carrying the exception's message |
| GlobalExceptionHandler.OnlyBadRequest | ClientManager/src/main/java/com/sunbase/clientmanager/exception/GlobalExceptionHandler.java:26 | no handler answers with a status other than 400 |
| Exceptions.GetMessage | ClientManager/src/main/java/com/sunbase/clientmanager/exception/GlobalExceptionHandler.java:55 | the message echoed in an error body is the exception's own message text for every kind that carries one (the service's, bad credentials, illegal argument, no handler, invalid argument), and absent exactly for the kinds whose text is not modelled |
| Users.Violations | ClientManager/src/main/java/com/sunbase/clientmanager/entity/User.java:26-40 | the fields named are exactly those that are blank or too long (email 50, password 100, role 20); none are named exactly when the user is valid |
| Users.LookupEmail | ClientManager/src/main/java/com/sunbase/clientmanager/security/CustomerUserDetailsService.java:34 | a found user is a stored row with exactly that email; nothing is found exactly when no row has it |
| Users.LookupStoredEmail | ClientManager/src/main/java/com/sunbase/clientmanager/entity/User.java:29 | with unique emails the lookup finds the one row holding the email |
| Users.SaveUserOp | ClientManager/src/main/java/com/sunbase/clientmanager/service/AuthServiceImpl.java:36 | save validates first; a new user is appended with the next id; an existing id is overwritten in place; a clashing email fails; a failure writes nothing |
| Users.SaveUserFrame | ClientManager/src/main/java/com/sunbase/clientmanager/service/AuthServiceImpl.java:36 | a successful save changes the table's length only when it appends one row, and no row but the saved one changes |
| Users.SaveUserKeepsWellFormed | ClientManager/src/main/java/com/sunbase/clientmanager/entity/User.java:22-40 | every write keeps the table's ids in place, every row valid and emails unique |
| Users.SaveUserOutcome | ClientManager/src/main/java/com/sunbase/clientmanager/entity/User.java:29 | only an existing email makes a valid write fail; a saved user is then found under its email |
| Users.NewUserIdIsStoreGenerated | ClientManager/src/main/java/com/sunbase/clientmanager/entity/User.java:22-24 | a saved user submitted without an id gets an id chosen by the store, different from every existing id |
| Users.UserRepository.FindByEmail | ClientManager/src/main/java/com/sunbase/clientmanager/security/CustomerUserDetailsService.java:34 | `findByEmail` returns a stored row with that email, or nothing exactly when none has it |
| Users.UserRepository.Save | ClientManager/src/main/java/com/sunbase/clientmanager/service/AuthServiceImpl.java:36 | the result and new rows are those of `SaveUserOp` on the old rows; the table invariant is kept |
| AuthService.GetAuthenticationDetails | ClientManager/src/main/java/com/sunbase/clientmanager/service/AuthServiceImpl.java:24-27 | the authentication itself when present, "Authentication details not found" otherwise |
| AuthService.RegisterUserOp | ClientManager/src/main/java/com/sunbase/clientmanager/service/AuthServiceImpl.java:34-39 | no user fails with "User registration failed" and no write; otherwise the user is saved and the reply names the saved email, or the save's error is passed on |
| AuthService.AuthServiceImpl.RegisterUser | ClientManager/src/main/java/com/sunbase/clientmanager/service/AuthServiceImpl.java:34-39 | the result and new user rows are those of `RegisterUserOp` on the old rows |
| AuthController.Login | ClientManager/src/main/java/com/sunbase/clientmanager/controller/AuthController.java:28-33 | 202 with the authentication received; none throws before the service is reached |
| AuthController.Encoded | ClientManager/src/main/java/com/sunbase/clientmanager/controller/AuthController.java:41 | only the password is replaced, by its encoding; every other field is passed through |
| AuthController.RegisterSpec | ClientManager/src/main/java/com/sunbase/clientmanager/controller/AuthController.java:39-47 | a missing body or password throws before any write; otherwise the encoded user is registered and the reply is 201 with the service's text |
| AuthController.RegisterStoresEncodedUser | ClientManager/src/main/java/com/sunbase/clientmanager/controller/AuthController.java:41-46 | registration never stores the raw password: every row afterwards is an old row or the submitted user with the encoded password, and success answers 201 naming the email |
| AuthController.RegisterWithExistingIdOverwrites | ClientManager/src/main/java/com/sunbase/clientmanager/controller/AuthController.java:38-46 | a register body whose id names a stored row, with an email no other row holds, succeeds and the table afterwards is the old one with that row replaced by the body (encoded password, the caller's email and role); the replaced user's old email then finds no one |
| AuthController.AuthController.Register | ClientManager/src/main/java/com/sunbase/clientmanager/controller/AuthController.java:39-47 | the reply and new user rows are those of `RegisterSpec` on the old rows |
| Authentications.NameAndText | ClientManager/src/main/java/com/sunbase/clientmanager/service/CustomerServiceImpl.java:173 | without a principal the name is "". A token's principal prints as its name. A Basic principal's name is its user name, but it prints as the longer `User` description that opens with the class name and that user name |
| CustomerUserDetailsService.RoleAuthority | ClientManager/src/main/java/com/sunbase/clientmanager/security/CustomerUserDetailsService.java:41 | the authority is "ROLE_" followed by the role upper-cased |
| CustomerUserDetailsService.RoleAuthorityIgnoresCase | ClientManager/src/main/java/com/sunbase/clientmanager/security/CustomerUserDetailsService.java:41 | roles differing only in case give the same authority |
| CustomerUserDetailsService.LoadUserByUsername | ClientManager/src/main/java/com/sunbase/clientmanager/security/CustomerUserDetailsService.java:31-53 | an unknown email fails with "User Details not found with this email: " and the email. Otherwise the details carry that email, the stored password and exactly the stored role's authority |
| CustomerUserDetailsService.LoadStoredUser | ClientManager/src/main/java/com/sunbase/clientmanager/security/CustomerUserDetailsService.java:34-48 | in a well-formed table every stored user loads with its email, encoded password and single role authority |
| CustomerUserDetailsService.LoadFailsOnlyForUnknown | ClientManager/src/main/java/com/sunbase/clientmanager/security/CustomerUserDetailsService.java:36-52 | in a well-formed table loading fails exactly for an email no row holds |
| Jwt.NumericDate | ClientManager/src/main/java/com/sunbase/clientmanager/security/JwtTokenGeneratorFilter.java:51-52 | a date becomes whole seconds, the milliseconds dropped |
| JwtTokenGeneratorFilter.Dedup | ClientManager/src/main/java/com/sunbase/clientmanager/security/JwtTokenGeneratorFilter.java:69-72 | the collected names are the same set as the input, each once |
| JwtTokenGeneratorFilter.DedupDistinct | ClientManager/src/main/java/com/sunbase/clientmanager/security/JwtTokenGeneratorFilter.java:69-72 | names already distinct are kept as they are |
| JwtTokenGeneratorFilter.PopulateAuthorities | ClientManager/src/main/java/com/sunbase/clientmanager/security/JwtTokenGeneratorFilter.java:68-74 | the loop's result is the distinct names joined with "," |
| JwtTokenGeneratorFilter.PopulateSmallCollections | ClientManager/src/main/java/com/sunbase/clientmanager/security/JwtTokenGeneratorFilter.java:73 | an empty collection gives ""; one name, twice or once, gives itself |
| JwtTokenGeneratorFilter.BuildClaims | ClientManager/src/main/java/com/sunbase/clientmanager/security/JwtTokenGeneratorFilter.java:46-52 | issuer "ADMIN", subject "JWT Token", `username` the principal's name, `authorities` the joined distinct names; issued at the first clock reading, expiring 30,000,000 ms after the second, both in seconds |
| JwtTokenGeneratorFilter.ValidityWindow | ClientManager/src/main/java/com/sunbase/clientmanager/security/JwtTokenGeneratorFilter.java:51-52 | read from one clock, the token is valid for exactly 30,000 seconds |
| JwtTokenGeneratorFilter.DoFilterInternal | ClientManager/src/main/java/com/sunbase/clientmanager/security/JwtTokenGeneratorFilter.java:33-62 | the chain always continues; with an authentication the signed token is written to the token header, without one nothing is written |
| JwtTokenValidatorFilter.ExactlyOneTokenFilter | ClientManager/src/main/java/com/sunbase/clientmanager/security/JwtTokenValidatorFilter.java:77 | on every path exactly one of the two token filters runs |
| JwtTokenValidatorFilter.StripBearer | ClientManager/src/main/java/com/sunbase/clientmanager/security/JwtTokenValidatorFilter.java:40 | a value starting with "Bearer " loses exactly those seven characters; any other value is kept |
| JwtTokenValidatorFilter.StripBearerOnce | ClientManager/src/main/java/com/sunbase/clientmanager/security/JwtTokenValidatorFilter.java:40 | the prefix is removed once: a doubled prefix leaves the second |
| JwtTokenValidatorFilter.ClaimShapes | ClientManager/src/main/java/com/sunbase/clientmanager/security/JwtTokenValidatorFilter.java:45-57 | a token that does not parse is a bad credential; a token without either claim authenticates a null principal with no authorities; a claim of another type than text is a bad credential |
| JwtTokenValidatorFilter.ValidateToken | ClientManager/src/main/java/com/sunbase/clientmanager/security/JwtTokenValidatorFilter.java:39-66 | succeeds exactly when the stripped token parses and both claims read. The principal is the `username` claim, the credentials null, the authorities the comma-split claim. Every failure is `BadCredentialsException("Invalid Token received.")` |
| JwtTokenValidatorFilter.ValidateHeader | ClientManager/src/main/java/com/sunbase/clientmanager/security/JwtTokenValidatorFilter.java:36-68 | no header is no authentication and no error; a header is validated as above |
| JwtTokenValidatorFilter.TokenRoundTrip | ClientManager/src/main/java/com/sunbase/clientmanager/security/JwtTokenValidatorFilter.java:45-57 | under a sound codec a generated token validates back to the principal's name and its distinct authorities when no authority holds a comma or stray blanks; with or without "Bearer " |
| JwtTokenValidatorFilter.GeneratedTokenValidates | ClientManager/src/main/java/com/sunbase/clientmanager/security/JwtTokenValidatorFilter.java:40-57 | under a sound codec, a generated token behind "Bearer " validates to a plain principal with the authentication's name and the comma split of its joined distinct authorities, whatever those hold |
| JwtTokenValidatorFilter.TokenRoundTripSet | ClientManager/src/main/java/com/sunbase/clientmanager/security/JwtTokenValidatorFilter.java:55 | the recovered authorities are exactly the granted set |
| JwtTokenValidatorFilter.CommaInAuthoritySplits | ClientManager/src/main/java/com/sunbase/clientmanager/security/JwtTokenValidatorFilter.java:55 | an authority holding a comma comes back as two authorities |
| JwtTokenValidatorFilter.DoFilterInternal | ClientManager/src/main/java/com/sunbase/clientmanager/security/JwtTokenValidatorFilter.java:33-69 | fails exactly when the header is present and invalid, leaving the context alone; a valid token sets the context's authentication; no header changes nothing |
| SecurityConfig.AnonymousRequests | ClientManager/src/main/java/com/sunbase/clientmanager/configuration/SecurityConfig.java:62-66 | a request without any header reaches the controller unauthenticated exactly for POST "/api/auth/register" and POST "/api/auth/login"; every other method and path is challenged |
| SecurityConfig.Position | ClientManager/src/main/java/com/sunbase/clientmanager/configuration/SecurityConfig.java:74-75 | each filter has one place in the order validator, Basic authentication, generator, authorization |
| SecurityConfig.ReadBasic | ClientManager/src/main/java/com/sunbase/clientmanager/configuration/SecurityConfig.java:77 | no `Authorization` header, or one whose trimmed value does not open with "basic" in any case, is no Basic request. A Basic header the converter reads yields credentials only when the payload after the six-character scheme decodes to user name, ':' and password, with no ':' in the user name |
| SecurityConfig.SplitCredentials | ClientManager/src/main/java/com/sunbase/clientmanager/configuration/SecurityConfig.java:77 | a decoded payload without ':' is malformed; otherwise it is the user name, ':' and the password, split at the first ':' |
| SecurityConfig.SplitAtFirstColon | ClientManager/src/main/java/com/sunbase/clientmanager/configuration/SecurityConfig.java:77 | a user name without ':' joined to any password by ':' splits back into the two |
| SecurityConfig.BasicScheme | ClientManager/src/main/java/com/sunbase/clientmanager/configuration/SecurityConfig.java:77 | "Basic " and a payload ending in a visible character survive trimming, open with the scheme in any case, and carry the payload after six characters |
| SecurityConfig.BasicHeaderRoundTrip | ClientManager/src/main/java/com/sunbase/clientmanager/configuration/SecurityConfig.java:77 | the header the client builds, "Basic " and the encoded "email:password", is read back as exactly that email and password |
| SecurityConfig.BearerIsNotBasic | ClientManager/src/main/java/com/sunbase/clientmanager/configuration/SecurityConfig.java:77 | an `Authorization` header holding "Bearer " and a token is not a Basic request |
| SecurityConfig.BasicAuthenticate | ClientManager/src/main/java/com/sunbase/clientmanager/configuration/SecurityConfig.java:77 | no Basic header changes nothing and a malformed one is challenged. Credentials naming the user already authenticated change nothing either. Otherwise the chain proceeds exactly when the user loads and the password matches, with the loaded `UserDetails` as principal and its authorities |
| SecurityConfig.ValidatorStep | ClientManager/src/main/java/com/sunbase/clientmanager/configuration/SecurityConfig.java:74 | the validator fails exactly off the login path, with a token header present that does not validate, and then with the invalid-token exception |
| SecurityConfig.GeneratorStep | ClientManager/src/main/java/com/sunbase/clientmanager/configuration/SecurityConfig.java:75 | the generator writes the header only on the login path and only with an authentication, and there exactly the issued token under the token header's name |
| SecurityConfig.ChainSpec | ClientManager/src/main/java/com/sunbase/clientmanager/configuration/SecurityConfig.java:42-77 | a request is stopped with an exception exactly when it is off the login path and its token header is present and invalid, and the exception is the invalid-token one; an authenticated path is reached only with an authentication; a token header is written only on the login path, and there exactly the issued token |
| SecurityConfig.NoCredentialsUnauthorized | ClientManager/src/main/java/com/sunbase/clientmanager/configuration/SecurityConfig.java:66 | a request to an authenticated path with neither a token header nor an `Authorization` header is challenged |
| SecurityConfig.LoginEndpointNeedsCredentials | ClientManager/src/main/java/com/sunbase/clientmanager/configuration/SecurityConfig.java:64-66 | GET "/api/auth/login", the mapping the controller has, is not permitted without credentials |
| SecurityConfig.InvalidTokenRejected | ClientManager/src/main/java/com/sunbase/clientmanager/configuration/SecurityConfig.java:74 | off the login path, a token header that does not validate stops the request with the validator's exception, whatever the other headers hold |
| SecurityConfig.BasicOffLoginPathRejected | ClientManager/src/main/java/com/sunbase/clientmanager/configuration/SecurityConfig.java:74-77 | when the token header is `Authorization`, as in the client, a Basic header on any path but the login path is read by the validator, never parses (it holds a space) and stops the request with the invalid-token exception |
| SecurityConfig.LoginPathIgnoresToken | ClientManager/src/main/java/com/sunbase/clientmanager/configuration/SecurityConfig.java:74 | on the login path two requests with the same method and the same Basic reading end the same, whatever their token headers hold |
| SecurityConfig.BasicAuthenticatesStoredUser | ClientManager/src/main/java/com/sunbase/clientmanager/configuration/SecurityConfig.java:77 | a stored user with a matching password is authenticated with its `UserDetails` (its email and its one role authority) as principal |
| SecurityConfig.LoginIssuesToken | ClientManager/src/main/java/com/sunbase/clientmanager/configuration/SecurityConfig.java:74-77 | `GET /api/auth/login` whose `Authorization` header is "Basic " and the encoded email and matching password of a stored user is dispatched as that user's `UserDetails`, and the response carries exactly the signed token in the token header |
| SecurityConfig.ValidTokenDispatches | ClientManager/src/main/java/com/sunbase/clientmanager/configuration/SecurityConfig.java:74 | off the login path, a token header that validates and no Basic header dispatch as the token's authentication, with no header written |
| SecurityConfig.IssuedTokenGrantsAccess | ClientManager/src/main/java/com/sunbase/clientmanager/configuration/SecurityConfig.java:74 | off the login path, a request bearing a token the generator issued (for authorities that are comma-free and trimmed) is dispatched as a plain principal of the issued name with the distinct authorities, with no header written, whether or not the token header is `Authorization` |
| SecurityConfig.LoginThenAccess | ClientManager/src/main/java/com/sunbase/clientmanager/configuration/SecurityConfig.java:74-77 | logging in with Basic credentials yields a token in the response header; presenting it on any other path authenticates the same email, now as a plain name, with the same authority and without other credentials |
| SecurityConfig.Process | ClientManager/src/main/java/com/sunbase/clientmanager/configuration/SecurityConfig.java:43-45 | running the filters over a new context and a new response gives exactly `ChainSpec`: nothing carries over between requests |
| Strings.RemoveChar | ClientManager/src/main/java/com/sunbase/clientmanager/service/CustomerServiceImpl.java:63 | `replace("-", "")` leaves no hyphen, removes only hyphens and shortens by their count |
| Strings.IndexOf | ClientManager/src/main/java/com/sunbase/clientmanager/configuration/SecurityConfig.java:77 | `indexOf(c)` on a string holding `c` is the first position of `c` |
| Strings.IndexOfAfter | ClientManager/src/main/java/com/sunbase/clientmanager/configuration/SecurityConfig.java:77 | the first `c` in `a`, `c`, `b` is right after `a` when `a` holds no `c` |
| Strings.ToLower | ClientManager/src/main/java/com/sunbase/clientmanager/service/CustomerServiceImpl.java:115 | `toLowerCase` keeps the length and leaves no upper-case letter |
| Strings.ToUpper | ClientManager/src/main/java/com/sunbase/clientmanager/security/CustomerUserDetailsService.java:41 | `toUpperCase` keeps the length and leaves no lower-case letter |
| Strings.ToLowerIgnoresCase | ClientManager/src/main/java/com/sunbase/clientmanager/service/CustomerServiceImpl.java:115 | lower-casing forgets case and is idempotent |
| Strings.Trim | ClientManager/src/main/java/com/sunbase/clientmanager/entity/User.java:26 | `trim()` leaves no blank at either end and keeps an already trimmed string |
| Strings.TrimNonEmpty | ClientManager/src/main/java/com/sunbase/clientmanager/entity/User.java:26 | `trim()` leaves something exactly when the string holds a character above U+0020 |
| Strings.TrimKeepsHead | ClientManager/src/main/java/com/sunbase/clientmanager/configuration/SecurityConfig.java:77 | a string opening with `k` visible characters keeps them as the head of its trimmed form |
| Strings.Tokenize | ClientManager/src/main/java/com/sunbase/clientmanager/security/JwtTokenValidatorFilter.java:55 | the comma split gives non-empty, comma-free, trimmed names; null gives none |
| Strings.TokenizeJoin | ClientManager/src/main/java/com/sunbase/clientmanager/security/JwtTokenValidatorFilter.java:55 | splitting the comma-join of comma-free, trimmed, non-empty names gives them back |
| Strings.NatToString | ClientManager/src/main/java/com/sunbase/clientmanager/service/CustomerServiceImpl.java:206 | a count is printed as its decimal digits without leading zeros |

## Left out

- I/O of every kind is left out; each collaborator is a parameter:
  - the HTTP client and Jackson parsing become the `authApi`/`remoteApi` reply functions;
  - `UUID.randomUUID`, `new Date()` and `LocalDateTime.now()` become parameters;
  - `BCryptPasswordEncoder.encode` and `matches` become function parameters.
- JWT compact serialisation, HMAC signing and the library's checks are one abstract `sign`/`parse` pair: signature, expiry and a weak-key exception all count as "does not parse". The token's expiry is therefore never checked against a clock here. A weak key counts as "does not parse" only on the validator's side, where the `catch` turns it into the invalid-token error. The generator calls `Keys.hmacShaKeyFor` outside any `try` (`JwtTokenGeneratorFilter.java:43`), so with a short key the login request itself fails. `Jwt.Sound` holds for every key and so leaves that failure out.
- `SecurityConstants` is not part of this model. Its key and header name are parameters (`SecurityConstants` datatype).
- Spring Data pagination and sorting (`PageRequest`, `Sort`, `Page`) are left out: a listing returns the whole selected sub-table.
- `CustomerService.GetAllCustomers`: `Sort.by(sortBy)` orders by the key as an entity attribute, and attribute names are case-sensitive. A key that is not exactly one of `Customer`'s fields (`Customer.java:16-24`), such as "FIRSTNAME", "City", "PHONE" or "bogus", makes the source's listing throw, and the handler answers 400. The model does not reproduce that failure: for such keys it returns what the `switch` selects. `CustomerService.GetAllIgnoresCase`, `CustomerService.SortFieldTable` and `CustomerController.GetAllCustomersEndpoint` are about that dispatch, not about the reply for a rejected key.
- The database's collation is left out: the finders use exact, case-sensitive equality as written in the queries.
- `Users.NewUserIdIsStoreGenerated`: the generated-id promise holds only for a body without an id. `@Data` gives `User` a `setId`, so the JSON bound by `register` (AuthController.java:39) may carry one, `save` merges such an entity over the row with that id, and `POST /api/auth/register` is open to anonymous callers (SecurityConfig.java:64). So anyone can replace any stored user's email, password and role; `AuthController.RegisterWithExistingIdOverwrites` states this. The model keeps that behaviour rather than clearing the id.
- `Users.SaveUserOp`: user ids are row positions plus one, so a new user gets the next position. The database's identity column need not agree: an `INSERT` that the unique email index rejects has already used up an id, and later ids skip it. After such a failure the model's ids, and the row that a client-supplied id overwrites, drift from the database's.
- JPA `merge` of an entity whose generated user id names no row is modelled as an insert with a fresh id. This depends on the Hibernate version and is not fixed by the source.
- The messages of the persistence exceptions (constraint violation, integrity violation, unassigned identifier) are not modelled. Only the kind, and for constraint violations the field names, are kept.
- `Exceptions.GetMessage`: a `NullPointerException` has no message in the model. From Java 15 on, the JVM's helpful messages make `getMessage()` non-null, so the 400 body's message for it is not modelled.
- `JwtTokenGeneratorFilter.Dedup`: the `HashSet` order is unspecified in Java. The model keeps first occurrences, and only the set of names, each once, is promised.
- `Strings.ToLower`, `Strings.ToUpper`: only ASCII letters change case. Java's locale-dependent full Unicode mapping is not modelled.
- Strings are sequences of characters. UTF-16 surrogate pairs are not distinguished.
- The `@Email` syntax check on `User.email` is not part of `Users.ValidUser`.
- Form login, CORS matching, CSRF and session handling are framework plumbing; only their fixed settings appear, as constants. The request-matcher pattern syntax is reduced to exact path equality.
- `SecurityConfig.ReadBasic`: Base64 decoding and the request's character set are one abstract `decode` parameter. The case-insensitive "Basic" check maps ASCII letters only.
- `SecurityConfig.ReadBasic`: header names are matched exactly, although HTTP header names are case-insensitive.
- `SecurityConfig.BasicAuthenticate`: the converter's own `BadCredentialsException` messages, and Spring's wrapping of loader failures, are folded into one challenge outcome.
- `SecurityConfig.BasicAuthenticate`: the branch for credentials naming the user already authenticated is Spring's re-authentication check. Off the login path it is reachable only when the token header is not `Authorization`; with the client's header choice, `SecurityConfig.BasicOffLoginPathRejected` shows that the validator rejects the request first.
- `SecurityConfig.BasicOffLoginPathRejected` assumes that the token codec rejects any text holding a space (`Jwt.RejectsSpaces`). A compact JWS, section 7.1 of RFC 7515, holds none.
- The token header's name, `SecurityConstants.JWT_HEADER`, is a parameter. The lemmas that assume `jwtHeader == "Authorization"` describe the deployment the client's requests show.
- `Authentications.PrincipalText` follows Spring Security 6's `User.toString()`, with the authorities in the order given. Other Spring versions print it differently.
- The status the container gives an exception escaping the filter chain is not modelled: `ChainOutcome.Rejected` carries the exception only.
- The authorization challenge's own response is not modelled: `Unauthorized` stands for 401 or the login redirect.
- `@RequestParam` conversion errors (a non-numeric `page`) are not modelled; the endpoint takes integers or nothing.
- `UserRepository.java` is not part of this model. Its `findByEmail` is modelled as Spring Data's derived exact-match query returning the only matching row.
- Thread-locality of the security context and concurrent sync runs are concurrency and are not modelled. The principal is passed explicitly.
- Logging is left out. So are the logging-only reads that come before a null check: `auth.getName()` in `login` and `user.getEmail()` in `register` are kept only as the `NullPointerException` they throw.
