/**
 * `SecurityConfig`: the access rule per (method, path), the place of the two
 * token filters around HTTP Basic authentication, and the stateless chain
 * they form for one request.
 */
module SecurityConfig {
  import opened Wrappers
  import opened Strings
  import opened Exceptions
  import opened Authentications
  import opened Users
  import opened CustomerUserDetailsService
  import opened Jwt
  import Generator = JwtTokenGeneratorFilter
  import Validator = JwtTokenValidatorFilter

  datatype HttpMethod = GET | HEAD | POST | PUT | PATCH | DELETE | OPTIONS | TRACE

  datatype Access = PermitAll | Authenticated

  const REGISTER_PATH := "/api/auth/register"

  /** The two `permitAll` matchers, then `anyRequest().authenticated()`. */
  function AccessRule(m: HttpMethod, path: string): Access {
    if m == POST && path == REGISTER_PATH then PermitAll
    else if m == POST && path == LOGIN_PATH then PermitAll
    else Authenticated
  }

  /** The filters a request passes, in the order the chain runs them. */
  datatype Filter = TokenValidator | BasicAuthentication | TokenGenerator | Authorization

  /** The validator is added before Basic authentication, the generator after it; authorization comes last. */
  const FILTER_ORDER: seq<Filter> := [TokenValidator, BasicAuthentication, TokenGenerator, Authorization]

  /** Where a filter stands in the chain. */
  function Position(f: Filter): (p: nat)
    ensures p < |FILTER_ORDER| && FILTER_ORDER[p] == f
    ensures forall q :: 0 <= q < |FILTER_ORDER| && FILTER_ORDER[q] == f ==> q == p
  {
    match f
    case TokenValidator => 0
    case BasicAuthentication => 1
    case TokenGenerator => 2
    case Authorization => 3
  }

  datatype SessionCreationPolicy = Always | IfRequired | Never | Stateless

  const SESSION_POLICY := Stateless
  const CSRF_ENABLED := false

  /** The CORS configuration every request gets. */
  datatype CorsConfiguration = CorsConfiguration(allowedOriginPatterns: seq<string>, allowedMethods: seq<string>,
                                                 allowCredentials: bool, allowedHeaders: seq<string>,
                                                 exposedHeaders: seq<string>)

  const CORS := CorsConfiguration(["*"], ["*"], true, ["*"], ["Authorization"])

  /** One request as the chain sees it: the HTTP method, the servlet path and the request headers by name. */
  datatype Request = Request(verb: HttpMethod, servletPath: string, headers: map<string, string>)

  /** The header HTTP Basic credentials travel in, and the scheme that opens them. */
  const AUTHORIZATION := "Authorization"
  const BASIC := "Basic "

  /** `request.getHeader(name)`: the value sent under that name, or null. */
  function Header(headers: map<string, string>, name: string): Option<string> {
    if name in headers then Some(headers[name]) else None
  }

  /** What comes of a request: an exception out of a filter, a 401 challenge, or the controller reached. */
  datatype ChainOutcome =
    | Rejected(error: Exception)
    | Unauthorized
    | Dispatched(auth: Option<Authentication>, headers: map<string, string>)

  /** What the Basic converter reads from a request: no Basic header, a malformed one, or a user name and a password. */
  datatype BasicHeader = NoBasic | Malformed | Credentials(username: string, password: string)

  /** What the Basic step leaves behind: the chain goes on with an authentication, or the client is challenged. */
  datatype BasicOutcome = Proceed(auth: Option<Authentication>) | Challenged

  /**
   * Spring's `BasicAuthenticationConverter`: the `Authorization` header,
   * trimmed. No header, or one that does not open with "Basic" in any case, is
   * no Basic request. "Basic" alone, a payload that `decode` (Base64, then the
   * request's charset) rejects, or a decoded text without ':' is malformed.
   * Otherwise the text splits at its first ':' into user name and password.
   */
  function ReadBasic(headers: map<string, string>, decode: string -> Option<string>): (b: BasicHeader)
    ensures AUTHORIZATION !in headers ==> b == NoBasic
    ensures b != NoBasic ==> AUTHORIZATION in headers && StartsWith(ToLower(Trim(headers[AUTHORIZATION])), "basic")
    ensures b.Credentials? ==>
      && |Trim(headers[AUTHORIZATION])| >= 6
      && decode(Trim(headers[AUTHORIZATION])[6..]) == Some(b.username + ":" + b.password)
      && ':' !in b.username
  {
    if AUTHORIZATION !in headers then NoBasic
    else
      var header := Trim(headers[AUTHORIZATION]);
      var lower := ToLower(header);
      if !StartsWith(lower, "basic") then NoBasic
      else if lower == "basic" then Malformed
      else
        StartsWithLonger(lower, "basic");
        match decode(header[6..])
        case None => Malformed
        case Some(token) => SplitCredentials(token)
  }

  /** The decoded Basic payload split at its first ':'; without one it is malformed. */
  function SplitCredentials(token: string): (b: BasicHeader)
    ensures b != NoBasic
    ensures b == Malformed <==> ':' !in token
    ensures b.Credentials? ==> token == b.username + ":" + b.password && ':' !in b.username
  {
    if ':' !in token then Malformed
    else
      var delim := IndexOf(token, ':');
      assert token == token[..delim] + ":" + token[delim + 1..];
      Credentials(token[..delim], token[delim + 1..])
  }

  /**
   * "Basic " followed by a payload that ends in a visible character: trimming
   * keeps it whole, it opens with "basic" in any case without being just that,
   * and the payload is what follows the scheme.
   */
  lemma BasicScheme(payload: string)
    requires payload != [] && payload[|payload| - 1] > ' '
    ensures (BASIC + payload)[6..] == payload
    ensures Trim(BASIC + payload) == BASIC + payload
    ensures StartsWith(ToLower(BASIC + payload), "basic") && ToLower(BASIC + payload) != "basic"
  {
    var header := BASIC + payload;
    assert Trimmed(header);
    assert ToLower(header)[..5] == "basic";
    assert |ToLower(header)| > 5;
  }

  /** A user name without ':' and any password, joined by ':', split back apart. */
  lemma SplitAtFirstColon(username: string, password: string)
    requires ':' !in username
    ensures SplitCredentials(username + ":" + password) == Credentials(username, password)
  {
    IndexOfAfter(username, ':', password);
    var token := username + ":" + password;
    assert token[..|username|] == username && token[|username| + 1..] == password;
  }

  /** The client's Basic header, "Basic " and a Base64 payload, is read back as the credentials it encodes. */
  lemma BasicHeaderRoundTrip(headers: map<string, string>, decode: string -> Option<string>,
                             username: string, password: string, payload: string)
    requires AUTHORIZATION in headers && headers[AUTHORIZATION] == BASIC + payload
    requires payload != [] && payload[|payload| - 1] > ' '
    requires decode(payload) == Some(username + ":" + password) && ':' !in username
    ensures ReadBasic(headers, decode) == Credentials(username, password)
  {
    BasicScheme(payload);
    SplitAtFirstColon(username, password);
  }

  /** A bearer header is not a Basic one: the converter leaves it alone. */
  lemma BearerIsNotBasic(headers: map<string, string>, decode: string -> Option<string>, token: string)
    requires AUTHORIZATION in headers && headers[AUTHORIZATION] == Validator.BEARER + token
    ensures ReadBasic(headers, decode) == NoBasic
  {
    var header := Validator.BEARER + token;
    TrimKeepsHead(header, 6);
    var t := Trim(header);
    assert t[1] == t[..6][1] == header[..6][1] == 'e';
    assert ToLower(t)[1] == 'e';
    assert !StartsWith(ToLower(t), "basic");
  }

  /**
   * HTTP Basic authentication against the user details service. Without a
   * Basic header nothing happens; a malformed one is a challenge. Credentials
   * for the name already authenticated change nothing either. Otherwise the
   * user is loaded and the presented password is matched against the stored
   * encoding; the result is an authentication whose principal is the loaded
   * `UserDetails`, with its authorities and erased credentials, and any
   * failure is a challenge.
   */
  function BasicAuthenticate(users: seq<User>, current: Option<Authentication>, basic: BasicHeader,
                             matches: (string, string) -> bool): (r: BasicOutcome)
    ensures basic == NoBasic ==> r == Proceed(current)
    ensures basic == Malformed ==> r == Challenged
    ensures basic.Credentials? && current.Some? && Name(current.value) == basic.username ==> r == Proceed(current)
    ensures basic.Credentials? && (current.None? || Name(current.value) != basic.username) ==>
      (r.Proceed? <==>
        LoadUserByUsername(users, basic.username).Ok? &&
        matches(basic.password, LoadUserByUsername(users, basic.username).value.password))
    ensures r.Proceed? && r != Proceed(current) ==>
      var details := LoadUserByUsername(users, basic.username).value;
      r.auth == Some(Authentication(Some(UserPrincipal(basic.username, details.authorities)), None, details.authorities))
  {
    match basic
    case NoBasic => Proceed(current)
    case Malformed => Challenged
    case Credentials(username, password) =>
      if current.Some? && Name(current.value) == username then Proceed(current)
      else
        match LoadUserByUsername(users, username)
        case Err(_) => Challenged
        case Ok(details) =>
          if matches(password, details.password) then
            Proceed(Some(Authentication(Some(UserPrincipal(details.username, details.authorities)), None, details.authorities)))
          else Challenged
  }

  /** The validator's step: skipped on the login path, otherwise the token header, when there is one, must validate. */
  function ValidatorStep(codec: JwtCodec, constants: SecurityConstants, request: Request)
    : (r: Result<Option<Authentication>, Exception>)
    ensures r.Err? <==>
      && request.servletPath != LOGIN_PATH
      && constants.jwtHeader in request.headers
      && Validator.ValidateToken(codec, constants, request.headers[constants.jwtHeader]).Err?
    ensures r.Err? ==> r.error == BadCredentialsException(Validator.INVALID_TOKEN)
  {
    if Validator.ShouldNotFilter(request.servletPath) then Ok(None)
    else Validator.ValidateHeader(codec, constants, Header(request.headers, constants.jwtHeader))
  }

  /** The generator's step: on the login path an authenticated request gets a token in the token header. */
  function GeneratorStep(codec: JwtCodec, constants: SecurityConstants, servletPath: string, auth: Option<Authentication>,
                         now1: nat, now2: nat): (headers: map<string, string>)
    ensures servletPath != LOGIN_PATH || auth.None? ==> headers == map[]
    ensures servletPath == LOGIN_PATH && auth.Some? ==>
      headers == map[constants.jwtHeader := Generator.IssueToken(codec, constants, auth.value, now1, now2)]
  {
    if Generator.ShouldNotFilter(servletPath) || auth.None? then map[]
    else map[constants.jwtHeader := Generator.IssueToken(codec, constants, auth.value, now1, now2)]
  }

  /**
   * The whole chain for one request, from an empty security context: the
   * validator (off the login path) on the token header, Basic authentication
   * on the `Authorization` header, the generator (on the login path), then the
   * access rule.
   */
  function ChainSpec(codec: JwtCodec, constants: SecurityConstants, users: seq<User>, matches: (string, string) -> bool,
                     decode: string -> Option<string>, request: Request, now1: nat, now2: nat): (o: ChainOutcome)
    ensures o.Rejected? <==>
      && request.servletPath != LOGIN_PATH
      && constants.jwtHeader in request.headers
      && Validator.ValidateToken(codec, constants, request.headers[constants.jwtHeader]).Err?
    ensures o.Rejected? ==> o.error == BadCredentialsException(Validator.INVALID_TOKEN)
    ensures o.Dispatched? && AccessRule(request.verb, request.servletPath) == Authenticated ==> o.auth.Some?
    ensures o.Dispatched? && request.servletPath != LOGIN_PATH ==> o.headers == map[]
    ensures o.Dispatched? && request.servletPath == LOGIN_PATH && o.auth.Some? ==>
      o.headers == map[constants.jwtHeader := Generator.IssueToken(codec, constants, o.auth.value, now1, now2)]
  {
    match ValidatorStep(codec, constants, request)
    case Err(e) => Rejected(e)
    case Ok(current) =>
      match BasicAuthenticate(users, current, ReadBasic(request.headers, decode), matches)
      case Challenged => Unauthorized
      case Proceed(auth) =>
        if AccessRule(request.verb, request.servletPath) == Authenticated && auth.None? then Unauthorized
        else Dispatched(auth, GeneratorStep(codec, constants, request.servletPath, auth, now1, now2))
  }

  /**
   * A request without any header reaches the controller unauthenticated on the
   * two permitted mappings, POST register and POST login, and is challenged
   * everywhere else.
   */
  lemma AnonymousRequests(codec: JwtCodec, constants: SecurityConstants, users: seq<User>, matches: (string, string) -> bool,
                          decode: string -> Option<string>, m: HttpMethod, path: string, now1: nat, now2: nat)
    ensures ChainSpec(codec, constants, users, matches, decode, Request(m, path, map[]), now1, now2) ==
      if m == POST && (path == REGISTER_PATH || path == LOGIN_PATH) then Dispatched(None, map[]) else Unauthorized
  {
  }

  /** A request to an authenticated path with neither a token header nor an `Authorization` header is challenged. */
  lemma NoCredentialsUnauthorized(codec: JwtCodec, constants: SecurityConstants, users: seq<User>,
                                  matches: (string, string) -> bool, decode: string -> Option<string>,
                                  request: Request, now1: nat, now2: nat)
    requires AccessRule(request.verb, request.servletPath) == Authenticated
    requires constants.jwtHeader !in request.headers && AUTHORIZATION !in request.headers
    ensures ChainSpec(codec, constants, users, matches, decode, request, now1, now2) == Unauthorized
  {
  }

  /** The login endpoint the controller maps (a GET) is not among the permitted ones: it needs credentials. */
  lemma LoginEndpointNeedsCredentials(codec: JwtCodec, constants: SecurityConstants, users: seq<User>,
                                      matches: (string, string) -> bool, decode: string -> Option<string>, now1: nat, now2: nat)
    ensures AccessRule(GET, LOGIN_PATH) == Authenticated
    ensures ChainSpec(codec, constants, users, matches, decode, Request(GET, LOGIN_PATH, map[]), now1, now2) == Unauthorized
  {
    AnonymousRequests(codec, constants, users, matches, decode, GET, LOGIN_PATH, now1, now2);
  }

  /**
   * Off the login path a token header that does not validate stops the
   * request with the validator's exception, even on a permitted path and
   * whatever the `Authorization` header holds.
   */
  lemma InvalidTokenRejected(codec: JwtCodec, constants: SecurityConstants, users: seq<User>,
                             matches: (string, string) -> bool, decode: string -> Option<string>,
                             request: Request, now1: nat, now2: nat)
    requires request.servletPath != LOGIN_PATH && constants.jwtHeader in request.headers
    requires Validator.ValidateToken(codec, constants, request.headers[constants.jwtHeader]).Err?
    ensures ChainSpec(codec, constants, users, matches, decode, request, now1, now2)
      == Rejected(BadCredentialsException(Validator.INVALID_TOKEN))
  {
  }

  /**
   * When the token header is `Authorization`, as the client's requests show,
   * a Basic header anywhere but the login path is read by the validator as a
   * token, and holding a space it never parses: the request ends with the
   * validator's exception before Basic authentication is reached.
   */
  lemma BasicOffLoginPathRejected(codec: JwtCodec, constants: SecurityConstants, users: seq<User>,
                                  matches: (string, string) -> bool, decode: string -> Option<string>,
                                  m: HttpMethod, path: string, payload: string, now1: nat, now2: nat)
    requires RejectsSpaces(codec) && constants.jwtHeader == AUTHORIZATION
    requires path != LOGIN_PATH
    ensures ChainSpec(codec, constants, users, matches, decode, Request(m, path, map[AUTHORIZATION := BASIC + payload]), now1, now2)
      == Rejected(BadCredentialsException(Validator.INVALID_TOKEN))
  {
    var header := BASIC + payload;
    assert header[1] == 'a' && Validator.BEARER[1] == 'e';
    assert Validator.StripBearer(header) == header;
    assert header[5] == ' ';
    assert codec.parse(SigningKey(constants), header).None?;
    InvalidTokenRejected(codec, constants, users, matches, decode, Request(m, path, map[AUTHORIZATION := header]), now1, now2);
  }

  /** On the login path only the Basic credentials count: the token header is never looked at. */
  lemma LoginPathIgnoresToken(codec: JwtCodec, constants: SecurityConstants, users: seq<User>,
                              matches: (string, string) -> bool, decode: string -> Option<string>,
                              r1: Request, r2: Request, now1: nat, now2: nat)
    requires r1.servletPath == LOGIN_PATH && r2.servletPath == LOGIN_PATH && r1.verb == r2.verb
    requires ReadBasic(r1.headers, decode) == ReadBasic(r2.headers, decode)
    ensures ChainSpec(codec, constants, users, matches, decode, r1, now1, now2)
      == ChainSpec(codec, constants, users, matches, decode, r2, now1, now2)
  {
  }

  /** A stored user presenting a matching password is authenticated as its `UserDetails` with its one role authority. */
  lemma BasicAuthenticatesStoredUser(users: seq<User>, i: int, password: string, matches: (string, string) -> bool)
    requires WellFormed(users) && 0 <= i < |users|
    requires matches(password, users[i].password.value)
    ensures var u := users[i];
      var role := [RoleAuthority(u.role.value)];
      BasicAuthenticate(users, None, Credentials(u.email.value, password), matches)
        == Proceed(Some(Authentication(Some(UserPrincipal(u.email.value, role)), None, role)))
  {
    LoadStoredUser(users, i);
  }

  /**
   * `GET /api/auth/login` with the header "Basic " and a payload encoding a
   * stored user's email and a matching password answers with a token for that
   * user in the token header.
   */
  lemma LoginIssuesToken(codec: JwtCodec, constants: SecurityConstants, users: seq<User>, i: int, password: string,
                         matches: (string, string) -> bool, decode: string -> Option<string>, payload: string,
                         now1: nat, now2: nat)
    requires WellFormed(users) && 0 <= i < |users|
    requires matches(password, users[i].password.value)
    requires payload != [] && payload[|payload| - 1] > ' '
    requires decode(payload) == Some(users[i].email.value + ":" + password) && ':' !in users[i].email.value
    ensures var u := users[i];
      var role := [RoleAuthority(u.role.value)];
      var auth := Authentication(Some(UserPrincipal(u.email.value, role)), None, role);
      ChainSpec(codec, constants, users, matches, decode, Request(GET, LOGIN_PATH, map[AUTHORIZATION := BASIC + payload]), now1, now2)
        == Dispatched(Some(auth), map[constants.jwtHeader := Generator.IssueToken(codec, constants, auth, now1, now2)])
  {
    BasicHeaderRoundTrip(map[AUTHORIZATION := BASIC + payload], decode, users[i].email.value, password, payload);
    BasicAuthenticatesStoredUser(users, i, password, matches);
  }

  /** Off the login path, a token header that validates and no Basic header dispatch as the token's authentication. */
  lemma ValidTokenDispatches(codec: JwtCodec, constants: SecurityConstants, users: seq<User>,
                             matches: (string, string) -> bool, decode: string -> Option<string>,
                             request: Request, a: Authentication, now1: nat, now2: nat)
    requires request.servletPath != LOGIN_PATH && constants.jwtHeader in request.headers
    requires Validator.ValidateToken(codec, constants, request.headers[constants.jwtHeader]) == Ok(a)
    requires ReadBasic(request.headers, decode) == NoBasic
    ensures ChainSpec(codec, constants, users, matches, decode, request, now1, now2) == Dispatched(Some(a), map[])
  {
    assert Validator.ValidateHeader(codec, constants, Header(request.headers, constants.jwtHeader)) == Ok(Some(a));
  }

  /**
   * A token the generator issued, sent back in the token header as
   * "Bearer <token>" on any path but the login path, authenticates a plain
   * principal with the issuing principal's name and its distinct authorities,
   * provided each is a comma-free, trimmed, non-empty name; no header is written.
   */
  lemma IssuedTokenGrantsAccess(codec: JwtCodec, constants: SecurityConstants, users: seq<User>,
                                matches: (string, string) -> bool, decode: string -> Option<string>, auth: Authentication,
                                m: HttpMethod, path: string, now1: nat, now2: nat, now3: nat, now4: nat)
    requires Sound(codec)
    requires forall k :: 0 <= k < |auth.authorities| ==> IsToken(auth.authorities[k])
    requires path != LOGIN_PATH
    ensures var token := Generator.IssueToken(codec, constants, auth, now1, now2);
      ChainSpec(codec, constants, users, matches, decode,
                Request(m, path, map[constants.jwtHeader := Validator.BEARER + token]), now3, now4)
        == Dispatched(Some(Authentication(Some(NamePrincipal(Name(auth))), None, Generator.Dedup(auth.authorities))), map[])
  {
    var token := Generator.IssueToken(codec, constants, auth, now1, now2);
    var request := Request(m, path, map[constants.jwtHeader := Validator.BEARER + token]);
    Validator.TokenRoundTrip(codec, constants, auth, now1, now2);
    if constants.jwtHeader == AUTHORIZATION {
      BearerIsNotBasic(request.headers, decode, token);
    } else {
      assert AUTHORIZATION !in request.headers;
    }
    ValidTokenDispatches(codec, constants, users, matches, decode, request,
                         Authentication(Some(NamePrincipal(Name(auth))), None, Generator.Dedup(auth.authorities)), now3, now4);
  }

  /**
   * Log in, then use the token: a stored user with a matching password gets
   * a token from `GET /api/auth/login`; sending "Bearer " and that token in the
   * token header on any other path authenticates the same email with the same
   * role authority (now as a plain name), without Basic credentials.
   */
  lemma LoginThenAccess(codec: JwtCodec, constants: SecurityConstants, users: seq<User>, i: int, password: string,
                        matches: (string, string) -> bool, decode: string -> Option<string>, payload: string,
                        m: HttpMethod, path: string, now1: nat, now2: nat, now3: nat, now4: nat)
    requires Sound(codec)
    requires WellFormed(users) && 0 <= i < |users|
    requires matches(password, users[i].password.value)
    requires payload != [] && payload[|payload| - 1] > ' '
    requires decode(payload) == Some(users[i].email.value + ":" + password) && ':' !in users[i].email.value
    requires IsToken(RoleAuthority(users[i].role.value))
    requires path != LOGIN_PATH
    ensures var u := users[i];
      var role := [RoleAuthority(u.role.value)];
      var auth := Authentication(Some(UserPrincipal(u.email.value, role)), None, role);
      var token := Generator.IssueToken(codec, constants, auth, now1, now2);
      && ChainSpec(codec, constants, users, matches, decode,
                   Request(GET, LOGIN_PATH, map[AUTHORIZATION := BASIC + payload]), now1, now2)
        == Dispatched(Some(auth), map[constants.jwtHeader := token])
      && ChainSpec(codec, constants, users, matches, decode,
                   Request(m, path, map[constants.jwtHeader := Validator.BEARER + token]), now3, now4)
        == Dispatched(Some(Authentication(Some(NamePrincipal(u.email.value)), None, role)), map[])
  {
    var u := users[i];
    var role := [RoleAuthority(u.role.value)];
    var auth := Authentication(Some(UserPrincipal(u.email.value, role)), None, role);
    assert role[..0] == [];
    assert Generator.Dedup(role) == role;
    assert Authentication(Some(NamePrincipal(Name(auth))), None, Generator.Dedup(auth.authorities))
      == Authentication(Some(NamePrincipal(u.email.value)), None, role);
    LoginIssuesToken(codec, constants, users, i, password, matches, decode, payload, now1, now2);
    IssuedTokenGrantsAccess(codec, constants, users, matches, decode, auth, m, path, now1, now2, now3, now4);
  }

  /**
   * The chain as the container runs it: each request starts from a new,
   * empty security context and a new response, so nothing carries over from
   * one request to the next.
   */
  method Process(codec: JwtCodec, constants: SecurityConstants, users: seq<User>, matches: (string, string) -> bool,
                 decode: string -> Option<string>, request: Request, now1: nat, now2: nat) returns (o: ChainOutcome)
    ensures o == ChainSpec(codec, constants, users, matches, decode, request, now1, now2)
  {
    var context := new Validator.SecurityContext();
    var response := new Generator.HttpResponse();
    if !Validator.ShouldNotFilter(request.servletPath) {
      var validated := Validator.DoFilterInternal(codec, constants, Header(request.headers, constants.jwtHeader), context);
      if validated.Err? {
        return Rejected(validated.error);
      }
    }
    var basic := BasicAuthenticate(users, context.authentication, ReadBasic(request.headers, decode), matches);
    if basic.Challenged? {
      return Unauthorized;
    }
    context.authentication := basic.auth;
    if !Generator.ShouldNotFilter(request.servletPath) {
      var continueChain := Generator.DoFilterInternal(codec, constants, context.authentication, response, now1, now2);
    }
    if AccessRule(request.verb, request.servletPath) == Authenticated && context.authentication.None? {
      return Unauthorized;
    }
    o := Dispatched(context.authentication, response.headers);
  }
}
