/**
 * `JwtTokenValidatorFilter`: on every path but the login path, a token header,
 * when present, is parsed and turned into the request's authentication; any
 * failure on the way is reported as a bad credential.
 */
module JwtTokenValidatorFilter {
  import opened Wrappers
  import opened Strings
  import opened Exceptions
  import opened Authentications
  import opened Jwt
  import Generator = JwtTokenGeneratorFilter

  /** The authorization scheme prefix of section 2.1 of RFC 6750. */
  const BEARER := "Bearer "
  const INVALID_TOKEN := "Invalid Token received."

  /** `shouldNotFilter`: the validator is skipped exactly on the login path. */
  function ShouldNotFilter(servletPath: string): bool {
    servletPath == LOGIN_PATH
  }

  /** On every path exactly one of the two token filters runs. */
  lemma ExactlyOneTokenFilter(servletPath: string)
    ensures ShouldNotFilter(servletPath) != Generator.ShouldNotFilter(servletPath)
  {
  }

  /** The header value with one leading "Bearer " removed, if it has one. */
  function StripBearer(header: string): (token: string)
    ensures StartsWith(header, BEARER) ==> header == BEARER + token
    ensures !StartsWith(header, BEARER) ==> token == header
  {
    if StartsWith(header, BEARER) then header[7..] else header
  }

  /** The prefix is removed once only: a doubled prefix leaves the second in place. */
  lemma StripBearerOnce(token: string)
    ensures StripBearer(BEARER + token) == token
    ensures StripBearer(BEARER + BEARER + token) == BEARER + token
  {
    assert (BEARER + token)[..7] == BEARER;
    assert (BEARER + BEARER + token)[..7] == BEARER;
    assert BEARER + BEARER + token == BEARER + (BEARER + token);
  }

  /** `claims.get(name, String.class)`: absent is null, a string is itself, any other type throws. */
  function ReadClaim(jws: Jws, name: string): Result<Option<string>, Exception> {
    if name !in jws.claims then Ok(None)
    else match jws.claims[name]
      case Text(s) => Ok(Some(s))
      case NonText => Err(IllegalArgumentException("claim " + name + " is not a string"))
  }

  /** `new UsernamePasswordAuthenticationToken(username, ...)` takes the claim text as its principal, null staying null. */
  function TokenPrincipal(username: Option<string>): Option<Principal> {
    if username.Some? then Some(NamePrincipal(username.value)) else None
  }

  /**
   * The body of the `try`: strip, parse, read both claims, rebuild the
   * principal with no credentials and the comma-split authorities. Whatever
   * fails is replaced by one bad-credentials error.
   */
  function ValidateToken(codec: JwtCodec, constants: SecurityConstants, header: string): (r: Result<Authentication, Exception>)
    ensures r.Err? ==> r.error == BadCredentialsException(INVALID_TOKEN)
    ensures var parsed := codec.parse(SigningKey(constants), StripBearer(header));
      r.Ok? <==> parsed.Some? && ReadClaim(parsed.value, USERNAME_CLAIM).Ok? && ReadClaim(parsed.value, AUTHORITIES_CLAIM).Ok?
    ensures r.Ok? ==>
      var jws := codec.parse(SigningKey(constants), StripBearer(header)).value;
      r.value == Authentication(TokenPrincipal(ReadClaim(jws, USERNAME_CLAIM).value), None,
                                Tokenize(ReadClaim(jws, AUTHORITIES_CLAIM).value))
  {
    match codec.parse(SigningKey(constants), StripBearer(header))
    case None => Err(BadCredentialsException(INVALID_TOKEN))
    case Some(jws) =>
      match ReadClaim(jws, USERNAME_CLAIM)
      case Err(_) => Err(BadCredentialsException(INVALID_TOKEN))
      case Ok(username) =>
        match ReadClaim(jws, AUTHORITIES_CLAIM)
        case Err(_) => Err(BadCredentialsException(INVALID_TOKEN))
        case Ok(authorities) => Ok(Authentication(TokenPrincipal(username), None, Tokenize(authorities)))
  }

  /**
   * A parsed token without a user name claim authenticates a null principal; a
   * claim of another type than text, or a token that does not parse, is a bad credential.
   */
  lemma ClaimShapes(codec: JwtCodec, constants: SecurityConstants, header: string)
    ensures codec.parse(SigningKey(constants), StripBearer(header)).None? ==> ValidateToken(codec, constants, header).Err?
    ensures var parsed := codec.parse(SigningKey(constants), StripBearer(header));
      parsed.Some? && USERNAME_CLAIM !in parsed.value.claims && AUTHORITIES_CLAIM !in parsed.value.claims ==>
        ValidateToken(codec, constants, header) == Ok(Authentication(None, None, []))
    ensures var parsed := codec.parse(SigningKey(constants), StripBearer(header));
      parsed.Some? && ((USERNAME_CLAIM in parsed.value.claims && parsed.value.claims[USERNAME_CLAIM].NonText?) ||
                       (AUTHORITIES_CLAIM in parsed.value.claims && parsed.value.claims[AUTHORITIES_CLAIM].NonText?)) ==>
        ValidateToken(codec, constants, header) == Err(BadCredentialsException(INVALID_TOKEN))
  {
  }

  /** The whole `doFilterInternal` decision: no header is no authentication, and not an error. */
  function ValidateHeader(codec: JwtCodec, constants: SecurityConstants, header: Option<string>)
    : (r: Result<Option<Authentication>, Exception>)
    ensures header.None? ==> r == Ok(None)
    ensures header.Some? && ValidateToken(codec, constants, header.value).Ok? ==>
      r == Ok(Some(ValidateToken(codec, constants, header.value).value))
    ensures header.Some? && ValidateToken(codec, constants, header.value).Err? ==>
      r == Err(BadCredentialsException(INVALID_TOKEN))
  {
    match header
    case None => Ok(None)
    case Some(h) =>
      match ValidateToken(codec, constants, h)
      case Err(e) => Err(e)
      case Ok(a) => Ok(Some(a))
  }

  /** A generated token, under a sound codec, validates to its name claim and the split of its authorities claim. */
  lemma GeneratedTokenValidates(codec: JwtCodec, constants: SecurityConstants, auth: Authentication, now1: nat, now2: nat)
    requires Sound(codec)
    ensures ValidateToken(codec, constants, BEARER + Generator.IssueToken(codec, constants, auth, now1, now2))
      == Ok(Authentication(Some(NamePrincipal(Name(auth))), None, Tokenize(Some(Join(Generator.Dedup(auth.authorities), ",")))))
  {
    var token := Generator.IssueToken(codec, constants, auth, now1, now2);
    var jws := Generator.BuildClaims(auth, now1, now2);
    assert codec.parse(SigningKey(constants), token) == Some(jws);
    StripBearerOnce(token);
    assert ReadClaim(jws, USERNAME_CLAIM) == Ok(Some(Name(auth)));
    assert ReadClaim(jws, AUTHORITIES_CLAIM) == Ok(Some(Join(Generator.Dedup(auth.authorities), ",")));
  }

  /**
   * A token issued by the generator validates back to its principal's name and
   * its distinct authorities, as long as each authority is a comma-free,
   * already trimmed, non-empty name; sent with or without the "Bearer " prefix.
   */
  lemma TokenRoundTrip(codec: JwtCodec, constants: SecurityConstants, auth: Authentication, now1: nat, now2: nat)
    requires Sound(codec)
    requires forall i :: 0 <= i < |auth.authorities| ==> IsToken(auth.authorities[i])
    ensures var token := Generator.IssueToken(codec, constants, auth, now1, now2);
      var expected := Authentication(Some(NamePrincipal(Name(auth))), None, Generator.Dedup(auth.authorities));
      && ValidateToken(codec, constants, BEARER + token) == Ok(expected)
      && (!StartsWith(token, BEARER) ==> ValidateToken(codec, constants, token) == Ok(expected))
  {
    var token := Generator.IssueToken(codec, constants, auth, now1, now2);
    var jws := Generator.BuildClaims(auth, now1, now2);
    assert codec.parse(SigningKey(constants), token) == Some(jws);
    StripBearerOnce(token);
    var names := Generator.Dedup(auth.authorities);
    assert forall i :: 0 <= i < |names| ==> IsToken(names[i]) by {
      forall i | 0 <= i < |names| ensures IsToken(names[i]) {
        assert names[i] in auth.authorities;
      }
    }
    TokenizeJoin(names);
  }

  /** The recovered authorities are exactly the set that was granted. */
  lemma TokenRoundTripSet(codec: JwtCodec, constants: SecurityConstants, auth: Authentication, now1: nat, now2: nat)
    requires Sound(codec)
    requires forall i :: 0 <= i < |auth.authorities| ==> IsToken(auth.authorities[i])
    ensures var r := ValidateToken(codec, constants, BEARER + Generator.IssueToken(codec, constants, auth, now1, now2));
      r.Ok? && (forall a :: a in r.value.authorities <==> a in auth.authorities)
  {
    TokenRoundTrip(codec, constants, auth, now1, now2);
  }

  /** The joined form of one comma-holding name splits into its two halves. */
  lemma CommaNameTokens()
    ensures Join(Generator.Dedup(["ROLE_A,ROLE_B"]), ",") == "ROLE_A,ROLE_B"
    ensures Tokenize(Some("ROLE_A,ROLE_B")) == ["ROLE_A", "ROLE_B"]
  {
    assert ["ROLE_A,ROLE_B"][..0] == [];
    assert Join(["ROLE_A", "ROLE_B"], ",") == "ROLE_A,ROLE_B";
    assert IsToken("ROLE_A") && IsToken("ROLE_B");
    TokenizeJoin(["ROLE_A", "ROLE_B"]);
  }

  /** An authority name holding a comma comes back as two. */
  lemma CommaInAuthoritySplits(codec: JwtCodec, constants: SecurityConstants, name: string, now1: nat, now2: nat)
    requires Sound(codec)
    ensures var auth := Authentication(Some(NamePrincipal(name)), None, ["ROLE_A,ROLE_B"]);
      ValidateToken(codec, constants, BEARER + Generator.IssueToken(codec, constants, auth, now1, now2))
        == Ok(Authentication(Some(NamePrincipal(name)), None, ["ROLE_A", "ROLE_B"]))
  {
    var auth := Authentication(Some(NamePrincipal(name)), None, ["ROLE_A,ROLE_B"]);
    var token := Generator.IssueToken(codec, constants, auth, now1, now2);
    var jws := Generator.BuildClaims(auth, now1, now2);
    assert codec.parse(SigningKey(constants), token) == Some(jws);
    StripBearerOnce(token);
    GeneratedTokenValidates(codec, constants, auth, now1, now2);
    CommaNameTokens();
  }

  /** The request's security context: the authentication the filters have established, if any. */
  class SecurityContext {
    var authentication: Option<Authentication>

    constructor ()
      ensures authentication.None?
    {
      authentication := None;
    }
  }

  /**
   * `doFilterInternal`: a missing header leaves the context alone and continues;
   * a good token sets the authentication and continues; any failure throws and
   * the chain stops, the context untouched.
   */
  method DoFilterInternal(codec: JwtCodec, constants: SecurityConstants, header: Option<string>, context: SecurityContext)
    returns (r: Result<(), Exception>)
    modifies context
    ensures r.Err? <==> ValidateHeader(codec, constants, header).Err?
    ensures r.Err? ==> r.error == BadCredentialsException(INVALID_TOKEN) && context.authentication == old(context.authentication)
    ensures ValidateHeader(codec, constants, header) == Ok(None) ==> context.authentication == old(context.authentication)
    ensures ValidateHeader(codec, constants, header).Ok? && ValidateHeader(codec, constants, header).value.Some? ==>
      context.authentication == ValidateHeader(codec, constants, header).value
  {
    if header.Some? {
      var jwtToken := StripBearer(header.value);
      var claims := codec.parse(SigningKey(constants), jwtToken);
      if claims.None? {
        return Err(BadCredentialsException(INVALID_TOKEN));
      }
      var username := ReadClaim(claims.value, USERNAME_CLAIM);
      if username.Err? {
        return Err(BadCredentialsException(INVALID_TOKEN));
      }
      var authorities := ReadClaim(claims.value, AUTHORITIES_CLAIM);
      if authorities.Err? {
        return Err(BadCredentialsException(INVALID_TOKEN));
      }
      var authorityList := Tokenize(authorities.value);
      context.authentication := Some(Authentication(TokenPrincipal(username.value), None, authorityList));
    }
    r := Ok(());
  }
}
