/**
 * `CustomerController`: each endpoint delegates once to the customer service
 * and wraps what comes back with a fixed status. Service exceptions are not
 * caught here; they reach the exception handler.
 */
module CustomerController {
  import opened Wrappers
  import opened Exceptions
  import opened GlobalExceptionHandler
  import opened CustomerModel
  import opened CustomerRepositories
  import opened RemoteApi
  import opened Authentications
  import opened CustomerService

  /** The `@RequestParam` defaults of `GET /api/customers`. */
  const DEFAULT_PAGE := 0
  const DEFAULT_SIZE := 10
  const DEFAULT_SORT_BY := "uuid"
  const DEFAULT_VALUE := ""

  /** `POST /api/customers`: 201 with the created customer. */
  function CreateCustomerEndpoint(rows: Rows, customer: Customer, randomUuid: string)
    : (res: (ResponseEntity<Customer>, Rows))
    ensures res.0.status.Code() == 201
    ensures res.0.body == Some(customer.(uuid := Some(CustomerKey(randomUuid))))
    ensures res.1 == CreateOp(rows, customer, randomUuid).1
  {
    var (created, rows') := CreateOp(rows, customer, randomUuid);
    (ResponseEntity(Some(created), CREATED), rows')
  }

  /** `PUT /api/customers/{uuid}`: 200 with the updated customer. */
  function UpdateCustomerEndpoint(rows: Rows, uuid: string, customer: Customer)
    : (res: (Result<ResponseEntity<Customer>, Exception>, Rows))
    ensures res.1 == UpdateOp(rows, uuid, customer).1
    ensures res.0.Ok? <==> uuid in rows
    ensures res.0.Ok? ==> res.0.value == ResponseEntity(Some(customer.(uuid := Some(uuid))), OK)
    ensures res.0.Err? ==> res.0.error == ClientManagerException(NOT_FOUND + uuid)
  {
    var (r, rows') := UpdateOp(rows, uuid, customer);
    match r
    case Err(e) => (Err(e), rows')
    case Ok(c) => (Ok(ResponseEntity(Some(c), OK)), rows')
  }

  /** `GET /api/customers`: absent parameters take their defaults; 200 with the selected records. */
  function GetAllCustomersEndpoint(rows: Rows, page: Option<int>, size: Option<int>, sortBy: Option<string>,
                                   value: Option<string>): (r: Result<ResponseEntity<Rows>, Exception>)
    ensures var (p, s, b, v) := (page.GetOr(DEFAULT_PAGE), size.GetOr(DEFAULT_SIZE),
                                 sortBy.GetOr(DEFAULT_SORT_BY), value.GetOr(DEFAULT_VALUE));
      (r.Ok? <==> GetAllCustomers(rows, p, s, b, v).Ok?) &&
      (r.Ok? ==> r.value == ResponseEntity(Some(GetAllCustomers(rows, p, s, b, v).value), OK)) &&
      (r.Err? ==> r.error == ClientManagerException(INVALID_PAGING))
  {
    match GetAllCustomers(rows, page.GetOr(DEFAULT_PAGE), size.GetOr(DEFAULT_SIZE),
                          sortBy.GetOr(DEFAULT_SORT_BY), value.GetOr(DEFAULT_VALUE))
    case Err(e) => Err(e)
    case Ok(found) => Ok(ResponseEntity(Some(found), OK))
  }

  /** With every parameter left out the endpoint lists the whole table. */
  lemma DefaultListingIsAll(rows: Rows)
    ensures GetAllCustomersEndpoint(rows, None, None, None, None) == Ok(ResponseEntity(Some(rows), OK))
  {
    SortFieldTable();
  }

  /** `GET /api/customers/{uuid}`: 200 with the stored record. The path variable is never null. */
  function GetCustomerByIdEndpoint(rows: Rows, uuid: string): (r: Result<ResponseEntity<Customer>, Exception>)
    ensures r.Ok? <==> uuid in rows
    ensures r.Ok? ==> r.value == ResponseEntity(Some(rows[uuid]), OK)
    ensures r.Err? ==> r.error == ClientManagerException(NOT_FOUND + uuid)
  {
    match GetCustomerById(rows, Some(uuid))
    case Err(e) => Err(e)
    case Ok(c) => Ok(ResponseEntity(Some(c), OK))
  }

  /** `DELETE /api/customers/{uuid}`: 204 and no body. */
  function DeleteCustomerEndpoint(rows: Rows, uuid: string): (res: (Result<ResponseEntity<()>, Exception>, Rows))
    ensures res.1 == DeleteOp(rows, Some(uuid)).1
    ensures res.0.Ok? <==> uuid in rows
    ensures res.0.Ok? ==> res.0.value.body.None? && res.0.value.status.Code() == 204
    ensures res.0.Err? ==> res.0.error == ClientManagerException(NOT_FOUND + uuid)
  {
    var (r, rows') := DeleteOp(rows, Some(uuid));
    match r
    case Err(e) => (Err(e), rows')
    case Ok(_) => (Ok(ResponseEntity(None, NO_CONTENT)), rows')
  }

  /** `POST /api/customers/sync`: 200 with the service's message. */
  function SyncDataEndpoint(rows: Rows, auth: Option<Authentication>, password: Option<string>,
                            authApi: string -> AuthReply, remoteApi: string -> FetchReply)
    : (res: (Result<ResponseEntity<string>, Exception>, Rows))
    ensures var (r, rows') := SyncSpec(rows, auth, password, authApi, remoteApi);
      res.1 == rows' &&
      (r.Ok? ==> res.0 == Ok(ResponseEntity(Some(r.value), OK))) &&
      (r.Err? ==> res.0 == Err(r.error))
  {
    var (r, rows') := SyncSpec(rows, auth, password, authApi, remoteApi);
    match r
    case Err(e) => (Err(e), rows')
    case Ok(msg) => (Ok(ResponseEntity(Some(msg), OK)), rows')
  }

  /** What the client sees for an unknown key: a 400 whose body carries the not-found message and the request. */
  lemma UnknownKeyAnswers400(rows: Rows, uuid: string, customer: Customer, requestUri: string, now: int)
    requires uuid !in rows
    ensures var expected := ResponseEntity(Some(ErrorDetails(Some(NOT_FOUND + uuid), "uri=" + requestUri, now)), BAD_REQUEST);
      && Reply(GetCustomerByIdEndpoint(rows, uuid), requestUri, now) == Failure(expected)
      && Reply(UpdateCustomerEndpoint(rows, uuid, customer).0, requestUri, now) == Failure(expected)
      && Reply(DeleteCustomerEndpoint(rows, uuid).0, requestUri, now) == Failure(expected)
      && UpdateCustomerEndpoint(rows, uuid, customer).1 == rows
      && DeleteCustomerEndpoint(rows, uuid).1 == rows
  {
  }

  /** A second sync over an unchanged table and the same remote list answers 400 "No Customers to update". */
  lemma RepeatedSyncAnswers400(rows: Rows, a: Authentication, password: Option<string>,
                               authApi: string -> AuthReply, remoteApi: string -> FetchReply,
                               requestUri: string, now: int)
    requires KeyedByUuid(rows)
    requires SyncDataEndpoint(rows, Some(a), password, authApi, remoteApi).0.Ok?
    ensures var rows' := SyncDataEndpoint(rows, Some(a), password, authApi, remoteApi).1;
      var (r, rows'') := SyncDataEndpoint(rows', Some(a), password, authApi, remoteApi);
      rows'' == rows' &&
      Reply(r, requestUri, now) ==
        Failure(ResponseEntity(Some(ErrorDetails(Some(NO_CUSTOMERS), "uri=" + requestUri, now)), BAD_REQUEST))
  {
    var token := GetToken(PrincipalText(a.principal.value), password, authApi).value;
    var remote := FetchCustomersFromRemoteApi(token, remoteApi).value;
    SyncTwiceFails(rows, remote);
  }
}
