/**
 * The two upstream calls of the sync flow, `getToken` and
 * `fetchCustomersFromRemoteApi`, as decisions over an abstract reply. The reply
 * is what the HTTP client and the JSON reader produced; the network is a
 * parameter (a function from what is sent to what comes back).
 */
module RemoteApi {
  import opened Wrappers
  import opened Strings
  import opened Exceptions
  import opened CustomerModel

  /** What the credential exchange yields: an HTTP client error, any other failure, or a parsed body. */
  datatype AuthReply =
    | AuthHttpError(message: string)
    | AuthFailure(failureMessage: Option<string>)
    | AuthBody(accessToken: Option<string>)   // the `access_token` field rendered with `asText()`, if present

  /** What the customer-list call yields: an HTTP client error, any other failure, or a (possibly null) list. */
  datatype FetchReply =
    | FetchHttpError(message: string)
    | FetchFailure(failureMessage: Option<string>)
    | FetchBody(customers: Option<seq<CustomerDTO>>)

  const LOGIN_PREFIX := "{\"login_id\":\""
  const LOGIN_MIDDLE := "\",\"password\":\""
  const LOGIN_SUFFIX := "\"}"

  /**
   * `String.format("{\"login_id\":\"%s\",\"password\":\"%s\"}", email, password)`:
   * the values are pasted in without escaping, and a null password prints as `null`.
   */
  function LoginPayload(email: string, password: Option<string>): (p: string)
    ensures StartsWith(p, LOGIN_PREFIX)
    ensures p[|p| - 2..] == LOGIN_SUFFIX
    ensures |p| == |LOGIN_PREFIX| + |email| + |LOGIN_MIDDLE| + |JavaStr(password)| + |LOGIN_SUFFIX|
    ensures p[|LOGIN_PREFIX|..|LOGIN_PREFIX| + |email|] == email
  {
    LOGIN_PREFIX + email + LOGIN_MIDDLE + JavaStr(password) + LOGIN_SUFFIX
  }

  const TOKEN_HTTP_ERROR := "HTTP error occurred while retrieving the token: "
  const TOKEN_FAILURE := "Failed to retrieve token: "
  const TOKEN_NOT_FOUND := "Token not found in the response."

  /**
   * `getToken`: post the payload, take `access_token` from the reply. The
   * missing-token exception is thrown inside the `try` and caught again by
   * `catch (Exception)`, so it surfaces under the generic prefix.
   */
  function GetToken(email: string, password: Option<string>, authApi: string -> AuthReply): (r: Result<string, Exception>)
    ensures r.Ok? ==> authApi(LoginPayload(email, password)) == AuthBody(Some(r.value))
    ensures forall t :: authApi(LoginPayload(email, password)) == AuthBody(Some(t)) ==> r == Ok(t)
    ensures authApi(LoginPayload(email, password)) == AuthBody(None) ==>
      r == Err(ClientManagerException(TOKEN_FAILURE + TOKEN_NOT_FOUND))
    ensures authApi(LoginPayload(email, password)).AuthHttpError? ==>
      r == Err(ClientManagerException(TOKEN_HTTP_ERROR + authApi(LoginPayload(email, password)).message))
    ensures authApi(LoginPayload(email, password)).AuthFailure? ==>
      r == Err(ClientManagerException(TOKEN_FAILURE + JavaStr(authApi(LoginPayload(email, password)).failureMessage)))
    ensures r.Err? ==>
      r.error.ClientManagerException? &&
      (StartsWith(r.error.message, TOKEN_HTTP_ERROR) || StartsWith(r.error.message, TOKEN_FAILURE))
  {
    match authApi(LoginPayload(email, password))
    case AuthHttpError(m) => Err(ClientManagerException(TOKEN_HTTP_ERROR + m))
    case AuthFailure(m) => Err(ClientManagerException(TOKEN_FAILURE + JavaStr(m)))
    case AuthBody(None) => Err(ClientManagerException(TOKEN_FAILURE + TOKEN_NOT_FOUND))
    case AuthBody(Some(t)) => Ok(t)
  }

  /** The `Authorization` header value sent with the customer-list request. */
  function BearerHeader(token: string): string {
    "Bearer " + token
  }

  const FETCH_HTTP_ERROR := "HTTP error occurred while fetching customers from the remote API: "
  const FETCH_FAILURE := "Failed to fetch customers from the remote API: "
  const FETCH_EMPTY := "No customers found in the response from the remote API."

  /**
   * `fetchCustomersFromRemoteApi`: a null or empty list is an error, and that
   * error, thrown inside the `try`, surfaces under the generic prefix.
   */
  function FetchCustomersFromRemoteApi(token: string, remoteApi: string -> FetchReply): (r: Result<seq<CustomerDTO>, Exception>)
    ensures r.Ok? ==> |r.value| > 0 && remoteApi(BearerHeader(token)) == FetchBody(Some(r.value))
    ensures (remoteApi(BearerHeader(token)) == FetchBody(None) || remoteApi(BearerHeader(token)) == FetchBody(Some([]))) ==>
      r == Err(ClientManagerException(FETCH_FAILURE + FETCH_EMPTY))
    ensures remoteApi(BearerHeader(token)).FetchHttpError? ==>
      r == Err(ClientManagerException(FETCH_HTTP_ERROR + remoteApi(BearerHeader(token)).message))
    ensures remoteApi(BearerHeader(token)).FetchFailure? ==>
      r == Err(ClientManagerException(FETCH_FAILURE + JavaStr(remoteApi(BearerHeader(token)).failureMessage)))
    ensures r.Err? ==>
      r.error.ClientManagerException? &&
      (StartsWith(r.error.message, FETCH_HTTP_ERROR) || StartsWith(r.error.message, FETCH_FAILURE))
  {
    match remoteApi(BearerHeader(token))
    case FetchHttpError(m) => Err(ClientManagerException(FETCH_HTTP_ERROR + m))
    case FetchFailure(m) => Err(ClientManagerException(FETCH_FAILURE + JavaStr(m)))
    case FetchBody(None) => Err(ClientManagerException(FETCH_FAILURE + FETCH_EMPTY))
    case FetchBody(Some(cs)) =>
      if |cs| == 0 then Err(ClientManagerException(FETCH_FAILURE + FETCH_EMPTY)) else Ok(cs)
  }

  /** A strictly positive-length list is always passed through unchanged. */
  lemma FetchPassesNonEmptyList(token: string, remoteApi: string -> FetchReply, cs: seq<CustomerDTO>)
    requires remoteApi(BearerHeader(token)) == FetchBody(Some(cs)) && |cs| > 0
    ensures FetchCustomersFromRemoteApi(token, remoteApi) == Ok(cs)
  {
  }

  lemma CancelPrefix(p: string, x: string, y: string)
    requires p + x == p + y
    ensures x == y
  {
    assert x == (p + x)[|p|..];
    assert y == (p + y)[|p|..];
  }

  lemma CancelSuffix(x: string, y: string, s: string)
    requires x + s == y + s
    ensures x == y
  {
    assert x == (x + s)[..|x|];
    assert y == (y + s)[..|y|];
  }

  /** A quote-free head followed by a part that starts with a quote is determined by the whole. */
  lemma QuoteFreeSplit(a: string, b: string, c: string, d: string)
    requires '"' !in a && '"' !in c
    requires |b| > 0 && b[0] == '"' && |d| > 0 && d[0] == '"'
    requires a + b == c + d
    ensures a == c && b == d
  {
    var s := a + b;
    assert s == c + d;
    assert s[|a|] == '"' && s[|c|] == '"';
    assert forall i :: 0 <= i < |a| ==> s[i] == a[i] && s[i] != '"';
    assert forall i :: 0 <= i < |c| ==> s[i] == c[i] && s[i] != '"';
    assert |a| == |c|;
    assert a == s[..|a|] && c == s[..|c|];
    assert b == s[|a|..] && d == s[|c|..];
  }

  /** Equal fills of the same template `p + e + m + t + q`, with a quote-free `e` and `m` opening with a quote, are equal. */
  lemma TemplateInjective(p: string, m: string, q: string, e1: string, t1: string, e2: string, t2: string)
    requires '"' !in e1 && '"' !in e2
    requires |m| > 0 && m[0] == '"'
    requires p + e1 + m + t1 + q == p + e2 + m + t2 + q
    ensures e1 == e2 && t1 == t2
  {
    var b1 := m + t1 + q;
    var b2 := m + t2 + q;
    assert p + e1 + m + t1 + q == p + (e1 + b1);
    assert p + e2 + m + t2 + q == p + (e2 + b2);
    CancelPrefix(p, e1 + b1, e2 + b2);
    assert b1[0] == '"' && b2[0] == '"';
    QuoteFreeSplit(e1, b1, e2, b2);
    assert b1 == m + (t1 + q) && b2 == m + (t2 + q);
    CancelPrefix(m, t1 + q, t2 + q);
    CancelSuffix(t1, t2, q);
  }

  /**
   * Without escaping, the payload still identifies the credentials as long as
   * the login id holds no double quote: equal payloads mean equal login ids and
   * equally rendered passwords.
   */
  lemma LoginPayloadInjective(e1: string, p1: Option<string>, e2: string, p2: Option<string>)
    requires '"' !in e1 && '"' !in e2
    requires LoginPayload(e1, p1) == LoginPayload(e2, p2)
    ensures e1 == e2 && JavaStr(p1) == JavaStr(p2)
  {
    assert LOGIN_MIDDLE[0] == '"';
    TemplateInjective(LOGIN_PREFIX, LOGIN_MIDDLE, LOGIN_SUFFIX, e1, JavaStr(p1), e2, JavaStr(p2));
  }

  /**
   * A login id with a quote in it can forge the password field: the id
   * `a","password":"b` with password `c` and the id `a` with password
   * `b","password":"c` are two credential pairs with one payload.
   */
  lemma LoginPayloadCollision(a: string, b: string, c: string)
    ensures LoginPayload(a + LOGIN_MIDDLE + b, Some(c)) == LoginPayload(a, Some(b + LOGIN_MIDDLE + c))
    ensures a + LOGIN_MIDDLE + b != a
  {
    var q := LOGIN_PREFIX + a + LOGIN_MIDDLE;
    assert LOGIN_PREFIX + (a + LOGIN_MIDDLE + b) == q + b;
    assert q + (b + LOGIN_MIDDLE + c) == q + b + LOGIN_MIDDLE + c;
    assert |a + LOGIN_MIDDLE + b| > |a|;
  }

  /** A null password and the literal password "null" are sent identically. */
  lemma NullPasswordPrintsNull(email: string)
    ensures LoginPayload(email, None) == LoginPayload(email, Some("null"))
  {
  }
}
