/**
 * `CustomerServiceImpl`: the create / update / get / delete / list operations
 * on the customer table, and `syncData`, which imports the remote customers
 * whose uuid the table does not hold yet. Each operation is stated as a
 * function of the table's contents (the `...Op` functions, `GetCustomerById`,
 * `GetAllCustomers`, `SyncSpec`); the class methods change the repository as
 * the Java does and are proved equal to those functions.
 */
module CustomerService {
  import opened Wrappers
  import opened Strings
  import opened Exceptions
  import opened CustomerModel
  import opened CustomerRepositories
  import opened RemoteApi
  import opened Authentications

  const NOT_FOUND := "Customer not found with ID: "
  const NULL_ID := "Customer ID cannot be null."
  const INVALID_PAGING := "Invalid pagination or sorting parameters."
  const NO_CUSTOMERS := "No Customers to update"
  const ADDED := " customers added successfully"

  // ---------------------------------------------------------------- create

  /** The key `createCustomer` assigns: "test" followed by the random UUID's text with every hyphen removed. */
  function CustomerKey(randomUuid: string): (key: string)
    ensures StartsWith(key, "test")
    ensures '-' !in key[4..]
    ensures |key| == 4 + |randomUuid| - Count(randomUuid, '-')
  {
    "test" + RemoveChar(randomUuid, '-')
  }

  predicate IsLowerHex(c: char) {
    '0' <= c <= '9' || 'a' <= c <= 'f'
  }

  /** The text of `UUID.toString()`: 8-4-4-4-12 lower-case hex digits joined by hyphens. */
  predicate IsCanonicalUuid(u: string) {
    |u| == 36 &&
    forall i :: 0 <= i < 36 ==>
      if i == 8 || i == 13 || i == 18 || i == 23 then u[i] == '-' else IsLowerHex(u[i])
  }

  lemma RemoveHyphenJoin(x: string, y: string)
    ensures RemoveChar(x + "-" + y, '-') == RemoveChar(x, '-') + RemoveChar(y, '-')
  {
    RemoveCharConcat(x + "-", y, '-');
    RemoveCharConcat(x, "-", '-');
  }

  /** The four hyphens of a canonical UUID are its only ones, so 32 characters are left. */
  lemma CanonicalUuidDigits(u: string)
    requires IsCanonicalUuid(u)
    ensures |RemoveChar(u, '-')| == 32
  {
    var a, b, c, d, e := u[..8], u[9..13], u[14..18], u[19..23], u[24..];
    assert u == a + "-" + b + "-" + c + "-" + d + "-" + e;
    assert '-' !in a && '-' !in b && '-' !in c && '-' !in d && '-' !in e;
    RemoveHyphenJoin(a + "-" + b + "-" + c + "-" + d, e);
    RemoveHyphenJoin(a + "-" + b + "-" + c, d);
    RemoveHyphenJoin(a + "-" + b, c);
    RemoveHyphenJoin(a, b);
  }

  /** Every character of a canonical UUID other than a hyphen is a lower-case hex digit. */
  lemma CanonicalUuidChars(u: string)
    requires IsCanonicalUuid(u)
    ensures forall x :: x in u && x != '-' ==> IsLowerHex(x)
  {
    forall x | x in u && x != '-' ensures IsLowerHex(x) {
      var j :| 0 <= j < |u| && u[j] == x;
    }
  }

  /** For a UUID as Java prints it, the key is 36 characters: "test" and 32 hex digits. */
  lemma CanonicalUuidKey(u: string)
    requires IsCanonicalUuid(u)
    ensures |CustomerKey(u)| == 36
    ensures forall i :: 4 <= i < 36 ==> IsLowerHex(CustomerKey(u)[i])
  {
    CanonicalUuidDigits(u);
    CanonicalUuidChars(u);
    var hex := RemoveChar(u, '-');
    forall i | 0 <= i < 32 ensures IsLowerHex(hex[i]) {
      assert hex[i] in hex;
    }
    assert CustomerKey(u) == "test" + hex;
    forall i | 4 <= i < 36 ensures IsLowerHex(CustomerKey(u)[i]) {
      assert CustomerKey(u)[i] == hex[i - 4];
    }
  }

  /** `createCustomer`: the record, with the generated key as its uuid, saved under that key. */
  function CreateOp(rows: Rows, c: Customer, randomUuid: string): (res: (Customer, Rows))
    ensures res.0.uuid == Some(CustomerKey(randomUuid))
    ensures res.0.(uuid := c.uuid) == c
    ensures res.1.Keys == rows.Keys + {CustomerKey(randomUuid)}
    ensures res.1[CustomerKey(randomUuid)] == res.0
    ensures forall k :: k in rows && k != CustomerKey(randomUuid) ==> res.1[k] == rows[k]
    ensures KeyedByUuid(rows) ==> KeyedByUuid(res.1)
  {
    var saved := c.(uuid := Some(CustomerKey(randomUuid)));
    (saved, rows[CustomerKey(randomUuid) := saved])
  }

  /** Whatever uuid the client sent is ignored: records differing only in uuid are created identically. */
  lemma CreateIgnoresClientUuid(rows: Rows, c1: Customer, c2: Customer, randomUuid: string)
    requires c1.(uuid := None) == c2.(uuid := None)
    ensures CreateOp(rows, c1, randomUuid) == CreateOp(rows, c2, randomUuid)
  {
    assert c1.(uuid := Some(CustomerKey(randomUuid))) == c2.(uuid := Some(CustomerKey(randomUuid)));
  }

  // ---------------------------------------------------------------- update

  /** `updateCustomer`: an absent key fails and changes nothing; a present key is overwritten with the given fields. */
  function UpdateOp(rows: Rows, uuid: string, c: Customer): (res: (Result<Customer, Exception>, Rows))
    ensures uuid !in rows ==> res == (Err(ClientManagerException(NOT_FOUND + uuid)), rows)
    ensures uuid in rows ==> res.0.Ok? && res.0.value.uuid == Some(uuid) && res.0.value.(uuid := c.uuid) == c
    ensures uuid in rows ==> res.1.Keys == rows.Keys && res.1[uuid] == res.0.value
    ensures forall k :: k in rows && k != uuid ==> res.1[k] == rows[k]
    ensures KeyedByUuid(rows) ==> KeyedByUuid(res.1)
  {
    if uuid !in rows then (Err(ClientManagerException(NOT_FOUND + uuid)), rows)
    else
      var saved := c.(uuid := Some(uuid));
      (Ok(saved), rows[uuid := saved])
  }

  // ---------------------------------------------------------------- get

  /** `getCustomerById`: a null id and an absent key are errors; otherwise the stored record itself. */
  function GetCustomerById(rows: Rows, uuid: Option<string>): (r: Result<Customer, Exception>)
    ensures uuid.None? ==> r == Err(ClientManagerException(NULL_ID))
    ensures uuid.Some? && uuid.value !in rows ==> r == Err(ClientManagerException(NOT_FOUND + uuid.value))
    ensures uuid.Some? && uuid.value in rows ==> r == Ok(rows[uuid.value])
  {
    match uuid
    case None => Err(ClientManagerException(NULL_ID))
    case Some(k) => if k in rows then Ok(rows[k]) else Err(ClientManagerException(NOT_FOUND + k))
  }

  // ---------------------------------------------------------------- delete

  /** `deleteCustomer`: the same two checks as get, then only that key is removed. */
  function DeleteOp(rows: Rows, uuid: Option<string>): (res: (Result<(), Exception>, Rows))
    ensures uuid.None? ==> res == (Err(ClientManagerException(NULL_ID)), rows)
    ensures uuid.Some? && uuid.value !in rows ==> res == (Err(ClientManagerException(NOT_FOUND + uuid.value)), rows)
    ensures uuid.Some? && uuid.value in rows ==> res.0.Ok? && res.1.Keys == rows.Keys - {uuid.value}
    ensures forall k :: k in res.1 ==> k in rows && res.1[k] == rows[k]
  {
    match uuid
    case None => (Err(ClientManagerException(NULL_ID)), rows)
    case Some(k) => if k in rows then (Ok(()), rows - {k}) else (Err(ClientManagerException(NOT_FOUND + k)), rows)
  }

  /** A created record is read back under its key; an updated one reads back as written. */
  lemma GetAfterWrite(rows: Rows, c: Customer, randomUuid: string, uuid: string)
    ensures var (created, rows') := CreateOp(rows, c, randomUuid);
      GetCustomerById(rows', Some(CustomerKey(randomUuid))) == Ok(created)
    ensures uuid in rows ==>
      var (updated, rows') := UpdateOp(rows, uuid, c);
      GetCustomerById(rows', Some(uuid)) == updated
  {
  }

  /** A deleted record is gone: reading it fails with the not-found message. */
  lemma GetAfterDelete(rows: Rows, uuid: string)
    requires uuid in rows
    ensures GetCustomerById(DeleteOp(rows, Some(uuid)).1, Some(uuid)) == Err(ClientManagerException(NOT_FOUND + uuid))
  {
  }

  // ---------------------------------------------------------------- list

  /** The `switch (sortBy.toLowerCase())` of `getAllCustomers`: which finder, if any, a sort key selects. */
  function SortField(sortBy: string): Option<Field> {
    var s := ToLower(sortBy);
    if s == "firstname" then Some(FirstName)
    else if s == "city" then Some(City)
    else if s == "email" then Some(Email)
    else if s == "phone" then Some(Phone)
    else None
  }

  /**
   * `getAllCustomers`, without the paging: the paging check comes first; then
   * the records of the selected finder, or every record.
   */
  function GetAllCustomers(rows: Rows, page: int, size: int, sortBy: string, value: string): (r: Result<Rows, Exception>)
    ensures r.Err? <==> page < 0 || size <= 0
    ensures r.Err? ==> r.error == ClientManagerException(INVALID_PAGING)
    ensures r.Ok? ==> IsSubStore(r.value, rows)
    ensures r.Ok? && SortField(sortBy).None? ==> r.value == rows
    ensures r.Ok? && SortField(sortBy).Some? ==> r.value == FindBy(rows, SortField(sortBy).value, value)
  {
    if page < 0 || size <= 0 then Err(ClientManagerException(INVALID_PAGING))
    else
      match SortField(sortBy)
      case Some(FirstName) => Ok(FindByFirstName(rows, value))
      case Some(City) => Ok(FindByCity(rows, value))
      case Some(Email) => Ok(FindByEmail(rows, value))
      case Some(Phone) => Ok(FindByPhone(rows, value))
      case None => Ok(rows)
  }

  /** The dispatch ignores the case of the sort key. */
  lemma GetAllIgnoresCase(rows: Rows, page: int, size: int, sortBy1: string, sortBy2: string, value: string)
    requires ToLower(sortBy1) == ToLower(sortBy2)
    ensures GetAllCustomers(rows, page, size, sortBy1, value) == GetAllCustomers(rows, page, size, sortBy2, value)
  {
  }

  /** The `switch` recognises exactly the four lower-cased labels, each for its own finder. */
  lemma SortFieldCases(sortBy: string)
    ensures SortField(sortBy).None? <==> ToLower(sortBy) !in {"firstname", "city", "email", "phone"}
    ensures SortField(sortBy) == Some(FirstName) <==> ToLower(sortBy) == "firstname"
    ensures SortField(sortBy) == Some(City) <==> ToLower(sortBy) == "city"
    ensures SortField(sortBy) == Some(Email) <==> ToLower(sortBy) == "email"
    ensures SortField(sortBy) == Some(Phone) <==> ToLower(sortBy) == "phone"
  {
  }

  /** The four recognised keys in any case, and everything else (the default "uuid" among them) lists all. */
  lemma SortFieldTable()
    ensures SortField("firstName") == Some(FirstName) && SortField("FIRSTNAME") == Some(FirstName)
    ensures SortField("City") == Some(City) && SortField("email") == Some(Email) && SortField("PHONE") == Some(Phone)
    ensures SortField("uuid") == None && SortField("lastName") == None
  {
    assert ToLower("firstName") == "firstname";
    assert ToLower("FIRSTNAME") == "firstname";
    assert ToLower("City") == "city";
    assert ToLower("email") == "email";
    assert ToLower("PHONE") == "phone";
    assert ToLower("uuid") == "uuid";
    assert ToLower("lastName") == "lastname";
  }

  // ---------------------------------------------------------------- sync

  /** The uuids of the local records, as `localCustomers.stream().map(Customer::getUuid)` collects them. */
  function LocalUuids(rows: Rows): set<Option<string>> {
    set k | k in rows :: rows[k].uuid
  }

  lemma LocalUuidsOfKeyedTable(rows: Rows)
    requires KeyedByUuid(rows)
    ensures forall k :: k in rows ==> Some(k) in LocalUuids(rows)
    ensures forall u :: u in LocalUuids(rows) ==> u.Some? && u.value in rows
  {
    forall k | k in rows ensures Some(k) in LocalUuids(rows) {
      assert rows[k].uuid == Some(k);
    }
  }

  /**
   * The new customers of a sync: the remote records, in remote order, whose
   * uuid is not among `local`, each copied into an entity. A null remote uuid
   * is never local.
   */
  function Delta(remote: seq<CustomerDTO>, local: set<Option<string>>): (r: seq<Customer>)
    ensures |r| <= |remote|
    ensures forall i :: 0 <= i < |r| ==> r[i].uuid !in local
  {
    if remote == [] then []
    else
      var last := remote[|remote| - 1];
      Delta(remote[..|remote| - 1], local) + (if last.uuid in local then [] else [ToCustomer(last)])
  }

  /** The delta of a concatenation is the concatenation of the deltas: remote order is kept. */
  lemma {:induction false} DeltaAppend(r1: seq<CustomerDTO>, r2: seq<CustomerDTO>, local: set<Option<string>>)
    ensures Delta(r1 + r2, local) == Delta(r1, local) + Delta(r2, local)
  {
    if r2 == [] {
      assert r1 + r2 == r1;
    } else {
      var init := r2[..|r2| - 1];
      assert (r1 + r2)[..|r1 + r2| - 1] == r1 + init;
      DeltaAppend(r1, init, local);
    }
  }

  /** Exactly the remote records with a non-local uuid make it into the delta. */
  lemma {:induction false} DeltaMembers(remote: seq<CustomerDTO>, local: set<Option<string>>, c: Customer)
    ensures c in Delta(remote, local) <==>
      exists i :: 0 <= i < |remote| && remote[i].uuid !in local && c == ToCustomer(remote[i])
  {
    if remote != [] {
      var init := remote[..|remote| - 1];
      DeltaMembers(init, local, c);
      if c in Delta(remote, local) && c !in Delta(init, local) {
        assert c == ToCustomer(remote[|remote| - 1]);
      }
      if c in Delta(init, local) {
        var i :| 0 <= i < |init| && init[i].uuid !in local && c == ToCustomer(init[i]);
        assert remote[i] == init[i];
      }
    }
  }

  /** With every remote uuid local, the delta is empty. */
  lemma DeltaEmptyWhenKnown(remote: seq<CustomerDTO>, local: set<Option<string>>)
    requires forall i :: 0 <= i < |remote| ==> remote[i].uuid in local
    ensures Delta(remote, local) == []
  {
    if Delta(remote, local) != [] {
      DeltaMembers(remote, local, Delta(remote, local)[0]);
      assert false;
    }
  }

  /** What `syncData` does once the remote list is in hand: snapshot, delta, empty check, batch save, report. */
  function SyncAfterFetch(rows: Rows, remote: seq<CustomerDTO>): (Result<string, Exception>, Rows) {
    var delta := Delta(remote, LocalUuids(rows));
    if |delta| == 0 then (Err(ClientManagerException(NO_CUSTOMERS)), rows)
    else
      var (saved, rows') := SaveAllOp(rows, delta);
      match saved
      case Err(e) => (Err(e), rows')
      case Ok(s) => (Ok(NatToString(|s|) + ADDED), rows')
  }

  /**
   * `syncData`: the principal's string form is the login id (a null
   * authentication or principal throws), then token, then list, then the merge.
   * For a token's principal that form is the user name; for one that HTTP
   * Basic authentication loaded it is the `User` description (`NameAndText`).
   */
  function SyncSpec(rows: Rows, auth: Option<Authentication>, password: Option<string>,
                    authApi: string -> AuthReply, remoteApi: string -> FetchReply): (Result<string, Exception>, Rows)
  {
    if auth.None? || auth.value.principal.None? then (Err(NullPointerException), rows)
    else
      match GetToken(PrincipalText(auth.value.principal.value), password, authApi)
      case Err(e) => (Err(e), rows)
      case Ok(token) =>
        match FetchCustomersFromRemoteApi(token, remoteApi)
        case Err(e) => (Err(e), rows)
        case Ok(remote) => SyncAfterFetch(rows, remote)
  }

  /**
   * A sync never touches a record it found locally. A successful one adds
   * exactly the delta's keys, each holding one of the remote records with that
   * uuid, and reports the delta's length (remote entries, not distinct keys).
   * An empty delta fails and changes nothing; so does a delta entry without uuid.
   */
  lemma SyncMerge(rows: Rows, remote: seq<CustomerDTO>)
    requires KeyedByUuid(rows)
    ensures var (r, rows') := SyncAfterFetch(rows, remote);
      var delta := Delta(remote, LocalUuids(rows));
      && (forall k :: k in rows ==> k in rows' && rows'[k] == rows[k])
      && KeyedByUuid(rows')
      && (|delta| == 0 ==> r == Err(ClientManagerException(NO_CUSTOMERS)) && rows' == rows)
      && (|delta| > 0 && !AllIdentified(delta) ==> r == Err(IdentifierNotAssignedException) && rows' == rows)
      && (r.Ok? <==> |delta| > 0 && AllIdentified(delta))
      && (r.Ok? ==> r.value == NatToString(|delta|) + ADDED && rows'.Keys == rows.Keys + BatchKeys(delta))
      && (r.Ok? ==> forall k :: k in rows' && k !in rows ==>
            exists i :: 0 <= i < |remote| && remote[i].uuid == Some(k) && rows'[k] == ToCustomer(remote[i]))
  {
    var delta := Delta(remote, LocalUuids(rows));
    LocalUuidsOfKeyedTable(rows);
    if |delta| > 0 && AllIdentified(delta) {
      StoreAllFrame(rows, delta);
      assert forall k :: k in BatchKeys(delta) ==> k !in rows by {
        forall k | k in BatchKeys(delta) ensures k !in rows {
          var i :| 0 <= i < |delta| && delta[i].uuid.value == k;
          assert delta[i].uuid !in LocalUuids(rows);
        }
      }
      var rows' := StoreAll(rows, delta);
      forall k | k in rows' && k !in rows
        ensures exists i :: 0 <= i < |remote| && remote[i].uuid == Some(k) && rows'[k] == ToCustomer(remote[i])
      {
        var j :| 0 <= j < |delta| && delta[j].uuid == Some(k) && rows'[k] == delta[j];
        DeltaMembers(remote, LocalUuids(rows), delta[j]);
      }
    }
  }

  /** Syncing again with the same remote list and no change in between fails with "No Customers to update". */
  lemma SyncTwiceFails(rows: Rows, remote: seq<CustomerDTO>)
    requires KeyedByUuid(rows)
    requires SyncAfterFetch(rows, remote).0.Ok?
    ensures var rows' := SyncAfterFetch(rows, remote).1;
      SyncAfterFetch(rows', remote) == (Err(ClientManagerException(NO_CUSTOMERS)), rows')
  {
    var local := LocalUuids(rows);
    var delta := Delta(remote, local);
    SyncMerge(rows, remote);
    var rows' := SyncAfterFetch(rows, remote).1;
    assert rows' == StoreAll(rows, delta);
    LocalUuidsOfKeyedTable(rows);
    LocalUuidsOfKeyedTable(rows');
    forall i | 0 <= i < |remote| ensures remote[i].uuid in LocalUuids(rows') {
      if remote[i].uuid !in local {
        DeltaMembers(remote, local, ToCustomer(remote[i]));
        var j :| 0 <= j < |delta| && delta[j] == ToCustomer(remote[i]);
        assert delta[j].uuid.value in BatchKeys(delta);
      }
    }
    DeltaEmptyWhenKnown(remote, LocalUuids(rows'));
  }

  /**
   * Upstream failures abort the sync before the table is read or written: the
   * missing token and the null or empty list surface under the generic prefixes.
   */
  lemma SyncUpstreamFailures(rows: Rows, a: Authentication, password: Option<string>,
                             authApi: string -> AuthReply, remoteApi: string -> FetchReply)
    requires a.principal.Some?
    ensures authApi(LoginPayload(PrincipalText(a.principal.value), password)) == AuthBody(None) ==>
      SyncSpec(rows, Some(a), password, authApi, remoteApi) ==
        (Err(ClientManagerException(TOKEN_FAILURE + TOKEN_NOT_FOUND)), rows)
    ensures forall t ::
      (authApi(LoginPayload(PrincipalText(a.principal.value), password)) == AuthBody(Some(t)) &&
       remoteApi(BearerHeader(t)) in {FetchBody(None), FetchBody(Some([]))}) ==>
      SyncSpec(rows, Some(a), password, authApi, remoteApi) ==
        (Err(ClientManagerException(FETCH_FAILURE + FETCH_EMPTY)), rows)
    ensures GetToken(PrincipalText(a.principal.value), password, authApi).Err? ==>
      SyncSpec(rows, Some(a), password, authApi, remoteApi).1 == rows &&
      SyncSpec(rows, Some(a), password, authApi, remoteApi).0 != Err(ClientManagerException(NO_CUSTOMERS))
  {
    var e := GetToken(PrincipalText(a.principal.value), password, authApi);
    if e.Err? {
      assert !StartsWith(NO_CUSTOMERS, TOKEN_HTTP_ERROR) && !StartsWith(NO_CUSTOMERS, TOKEN_FAILURE) by {
        assert |NO_CUSTOMERS| < |TOKEN_FAILURE| < |TOKEN_HTTP_ERROR|;
      }
    }
  }

  /**
   * A sync by a principal that HTTP Basic authentication loaded does not log in
   * upstream with that user's email: the payload carries the `User` description.
   */
  lemma BasicPrincipalSyncLoginId(rows: Rows, email: string, authorities: seq<string>, password: Option<string>,
                                  authApi: string -> AuthReply, remoteApi: string -> FetchReply)
    ensures var a := Authentication(Some(UserPrincipal(email, authorities)), None, authorities);
      && PrincipalText(a.principal.value) != email
      && LoginPayload(PrincipalText(a.principal.value), password) != LoginPayload(email, password)
      && SyncSpec(rows, Some(a), password, authApi, remoteApi) ==
         SyncSpec(rows, Some(Authentication(Some(NamePrincipal(PrincipalText(a.principal.value))), None, authorities)),
                  password, authApi, remoteApi)
  {
    var a := Authentication(Some(UserPrincipal(email, authorities)), None, authorities);
    var text := PrincipalText(a.principal.value);
    NameAndText(a);
    assert |text| > |email|;
    assert |LoginPayload(text, password)| > |LoginPayload(email, password)|;
    SyncSpecByText(rows, a, Authentication(Some(NamePrincipal(text)), None, authorities), password, authApi, remoteApi);
  }

  /** The synchronisation sees of its caller only the principal's string form. */
  lemma SyncSpecByText(rows: Rows, a: Authentication, b: Authentication, password: Option<string>,
                       authApi: string -> AuthReply, remoteApi: string -> FetchReply)
    requires a.principal.Some? && b.principal.Some?
    requires PrincipalText(a.principal.value) == PrincipalText(b.principal.value)
    ensures SyncSpec(rows, Some(a), password, authApi, remoteApi) == SyncSpec(rows, Some(b), password, authApi, remoteApi)
  {
  }

  function Dto(uuid: string): CustomerDTO {
    CustomerDTO(Some(uuid), None, None, None, None, None, None, None, None)
  }

  lemma DeltaSnoc(remote: seq<CustomerDTO>, d: CustomerDTO, local: set<Option<string>>)
    ensures Delta(remote + [d], local) == Delta(remote, local) + (if d.uuid in local then [] else [ToCustomer(d)])
  {
    assert (remote + [d])[..|remote|] == remote;
  }

  lemma ReportOfTwo()
    ensures NatToString(2) + ADDED == "2" + ADDED
  {
    assert NatToString(2) == "2";
  }

  function ExampleTable(): Rows {
    map["A" := ToCustomer(Dto("A")), "B" := ToCustomer(Dto("B"))]
  }

  lemma ExampleLocal()
    ensures LocalUuids(ExampleTable()) == {Some("A"), Some("B")}
  {
    var rows := ExampleTable();
    assert rows["A"].uuid == Some("A") && rows["B"].uuid == Some("B");
    assert forall k :: k in rows ==> k == "A" || k == "B";
  }

  lemma ExampleDelta()
    ensures Delta([Dto("A"), Dto("B"), Dto("C"), Dto("D")], {Some("A"), Some("B")}) ==
      [ToCustomer(Dto("C")), ToCustomer(Dto("D"))]
  {
    var local := {Some("A"), Some("B")};
    assert Some("C") !in local && Some("D") !in local by {
      assert "C" != "A" && "C" != "B" && "D" != "A" && "D" != "B";
    }
    assert [] + [Dto("A")] == [Dto("A")] && [Dto("A")] + [Dto("B")] == [Dto("A"), Dto("B")];
    assert [Dto("A"), Dto("B")] + [Dto("C")] == [Dto("A"), Dto("B"), Dto("C")];
    assert [Dto("A"), Dto("B"), Dto("C")] + [Dto("D")] == [Dto("A"), Dto("B"), Dto("C"), Dto("D")];
    DeltaSnoc([], Dto("A"), local);
    DeltaSnoc([Dto("A")], Dto("B"), local);
    DeltaSnoc([Dto("A"), Dto("B")], Dto("C"), local);
    DeltaSnoc([Dto("A"), Dto("B"), Dto("C")], Dto("D"), local);
  }

  /** Local keys {A, B}, remote A, B, C, D: C and D are added, and the report counts two. */
  lemma SyncExample()
    ensures SyncAfterFetch(ExampleTable(), [Dto("A"), Dto("B"), Dto("C"), Dto("D")]).0 ==
      Ok("2" + ADDED)
    ensures SyncAfterFetch(ExampleTable(), [Dto("A"), Dto("B"), Dto("C"), Dto("D")]).1.Keys == {"A", "B", "C", "D"}
  {
    ReportOfTwo();
    ExampleLocal();
    ExampleDelta();
    var delta := [ToCustomer(Dto("C")), ToCustomer(Dto("D"))];
    assert AllIdentified(delta);
    assert delta[..1] == [ToCustomer(Dto("C"))] && delta[..1][..0] == [];
    assert StoreAll(ExampleTable(), delta).Keys == {"A", "B", "C", "D"};
  }

  lemma DuplicateDelta()
    ensures LocalUuids(map[]) == {}
    ensures Delta([Dto("C"), Dto("C")], {}) == [ToCustomer(Dto("C")), ToCustomer(Dto("C"))]
  {
    assert [] + [Dto("C")] == [Dto("C")] && [Dto("C")] + [Dto("C")] == [Dto("C"), Dto("C")];
    DeltaSnoc([], Dto("C"), {});
    DeltaSnoc([Dto("C")], Dto("C"), {});
  }

  /** The count is of remote entries: a record listed twice is counted twice but stored once. */
  lemma SyncCountsRemoteEntries()
    ensures SyncAfterFetch(map[], [Dto("C"), Dto("C")]).0 == Ok("2" + ADDED)
    ensures SyncAfterFetch(map[], [Dto("C"), Dto("C")]).1.Keys == {"C"}
  {
    ReportOfTwo();
    DuplicateDelta();
    var delta := [ToCustomer(Dto("C")), ToCustomer(Dto("C"))];
    assert AllIdentified(delta);
    assert delta[..1] == [ToCustomer(Dto("C"))] && delta[..1][..0] == [];
    assert StoreAll(map[], delta).Keys == {"C"};
  }

  /** `syncData`'s loop: the new customers in remote order. */
  method SelectNewCustomers(remoteCustomers: seq<CustomerDTO>, localCustomerUuids: set<Option<string>>)
    returns (newCustomers: seq<Customer>)
    ensures newCustomers == Delta(remoteCustomers, localCustomerUuids)
  {
    newCustomers := [];
    for i := 0 to |remoteCustomers|
      invariant newCustomers == Delta(remoteCustomers[..i], localCustomerUuids)
    {
      var rc := remoteCustomers[i];
      assert remoteCustomers[..i + 1][..i] == remoteCustomers[..i];
      if rc.uuid !in localCustomerUuids {
        newCustomers := newCustomers + [ToCustomer(rc)];
      }
    }
    assert remoteCustomers[..|remoteCustomers|] == remoteCustomers;
  }

  /** The service object, holding the repository it was given. */
  class CustomerServiceImpl {
    const customerRepository: CustomerRepository

    constructor (repository: CustomerRepository)
      ensures customerRepository == repository
    {
      customerRepository := repository;
    }

    method CreateCustomer(customer: Customer, randomUuid: string) returns (created: Customer)
      requires customerRepository.Valid()
      modifies customerRepository
      ensures customerRepository.Valid()
      ensures (created, customerRepository.rows) == CreateOp(old(customerRepository.rows), customer, randomUuid)
    {
      var hexCode := RemoveChar(randomUuid, '-');
      var customUuid := "test" + hexCode;
      var c := customer.(uuid := Some(customUuid));
      var saved := customerRepository.Save(c);
      created := saved.value;
    }

    method UpdateCustomer(uuid: string, customer: Customer) returns (r: Result<Customer, Exception>)
      requires customerRepository.Valid()
      modifies customerRepository
      ensures customerRepository.Valid()
      ensures (r, customerRepository.rows) == UpdateOp(old(customerRepository.rows), uuid, customer)
    {
      if !customerRepository.ExistsById(uuid) {
        return Err(ClientManagerException(NOT_FOUND + uuid));
      }
      var c := customer.(uuid := Some(uuid));
      r := customerRepository.Save(c);
    }

    method DeleteCustomer(uuid: Option<string>) returns (r: Result<(), Exception>)
      requires customerRepository.Valid()
      modifies customerRepository
      ensures customerRepository.Valid()
      ensures (r, customerRepository.rows) == DeleteOp(old(customerRepository.rows), uuid)
    {
      if uuid.None? {
        return Err(ClientManagerException(NULL_ID));
      }
      if !customerRepository.ExistsById(uuid.value) {
        return Err(ClientManagerException(NOT_FOUND + uuid.value));
      }
      customerRepository.DeleteById(uuid.value);
      r := Ok(());
    }

    method SyncData(authentication: Option<Authentication>, password: Option<string>,
                    authApi: string -> AuthReply, remoteApi: string -> FetchReply)
      returns (r: Result<string, Exception>)
      requires customerRepository.Valid()
      modifies customerRepository
      ensures customerRepository.Valid()
      ensures (r, customerRepository.rows) ==
        SyncSpec(old(customerRepository.rows), authentication, password, authApi, remoteApi)
    {
      if authentication.None? || authentication.value.principal.None? {
        return Err(NullPointerException);
      }
      var username := PrincipalText(authentication.value.principal.value);
      var token := GetToken(username, password, authApi);
      if token.Err? {
        return Err(token.error);
      }
      var remoteCustomers := FetchCustomersFromRemoteApi(token.value, remoteApi);
      if remoteCustomers.Err? {
        return Err(remoteCustomers.error);
      }
      var localCustomerUuids := LocalUuids(customerRepository.rows);
      var newCustomers := SelectNewCustomers(remoteCustomers.value, localCustomerUuids);
      if |newCustomers| == 0 {
        return Err(ClientManagerException(NO_CUSTOMERS));
      }
      var saved := customerRepository.SaveAll(newCustomers);
      if saved.Err? {
        return Err(saved.error);
      }
      r := Ok(NatToString(|saved.value|) + ADDED);
    }
  }
}
