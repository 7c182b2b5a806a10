/**
 * `JwtTokenGeneratorFilter`: on the login path, after authentication, sign a
 * token for the current principal and put it in the response header.
 */
module JwtTokenGeneratorFilter {
  import opened Wrappers
  import opened Strings
  import opened Authentications
  import opened Jwt

  const ISSUER := "ADMIN"
  const SUBJECT := "JWT Token"
  const VALIDITY_MILLIS := 30000000

  /** `shouldNotFilter`: the generator is skipped on every path but the login path. */
  function ShouldNotFilter(servletPath: string): bool {
    servletPath != LOGIN_PATH
  }

  /**
   * The authority names with repeats dropped, each kept at its first
   * occurrence. It stands for the `HashSet` the filter collects into, whose
   * iteration order Java leaves unspecified.
   */
  function Dedup(xs: seq<string>): (r: seq<string>)
    ensures forall x :: x in r <==> x in xs
    ensures forall i, j :: 0 <= i < j < |r| ==> r[i] != r[j]
    ensures |r| <= |xs|
  {
    if xs == [] then []
    else
      var init := xs[..|xs| - 1];
      var last := xs[|xs| - 1];
      assert xs == init + [last];
      var r := Dedup(init);
      if last in r then r else r + [last]
  }

  /** Already distinct names are kept as they are. */
  lemma {:induction false} DedupDistinct(xs: seq<string>)
    requires forall i, j :: 0 <= i < j < |xs| ==> xs[i] != xs[j]
    ensures Dedup(xs) == xs
  {
    if xs != [] {
      var init := xs[..|xs| - 1];
      DedupDistinct(init);
      assert xs[|xs| - 1] !in init;
      assert init + [xs[|xs| - 1]] == xs;
    }
  }

  /** `populateAuthorities`: collect the names into a set, then join them with commas. */
  method PopulateAuthorities(collection: seq<string>) returns (joined: string)
    ensures joined == Join(Dedup(collection), ",")
  {
    var authorities: seq<string> := [];
    for i := 0 to |collection|
      invariant authorities == Dedup(collection[..i])
    {
      assert collection[..i + 1][..i] == collection[..i];
      if collection[i] !in authorities {
        authorities := authorities + [collection[i]];
      }
    }
    assert collection[..|collection|] == collection;
    joined := Join(authorities, ",");
  }

  /** An empty collection yields the empty string; a single name yields itself. */
  lemma PopulateSmallCollections(a: string)
    ensures Join(Dedup([]), ",") == ""
    ensures Join(Dedup([a]), ",") == a && Join(Dedup([a, a]), ",") == a
  {
    assert [a][..0] == [] && [a, a][..1] == [a];
  }

  /**
   * The payload the filter signs: fixed issuer and subject, the principal's
   * name and the joined authorities as string claims, issued at the first
   * clock reading and expiring 30,000,000 ms after the second.
   */
  function BuildClaims(auth: Authentication, now1: nat, now2: nat): (jws: Jws)
    ensures jws.issuer == "ADMIN" && jws.subject == "JWT Token"
    ensures jws.claims.Keys == {USERNAME_CLAIM, AUTHORITIES_CLAIM}
    ensures jws.claims[USERNAME_CLAIM] == Text(Name(auth))
    ensures jws.claims[AUTHORITIES_CLAIM] == Text(Join(Dedup(auth.authorities), ","))
    ensures jws.issuedAt * 1000 <= now1 < jws.issuedAt * 1000 + 1000
    ensures jws.expiration * 1000 <= now2 + 30000000 < jws.expiration * 1000 + 1000
  {
    Jws(ISSUER, SUBJECT,
        map[USERNAME_CLAIM := Text(Name(auth)), AUTHORITIES_CLAIM := Text(Join(Dedup(auth.authorities), ","))],
        NumericDate(now1), NumericDate(now2 + VALIDITY_MILLIS))
  }

  /** Read from one clock reading, the token is valid for exactly 30,000 seconds. */
  lemma ValidityWindow(auth: Authentication, now: nat)
    ensures BuildClaims(auth, now, now).expiration - BuildClaims(auth, now, now).issuedAt == 30000
  {
  }

  /** The signed header value. */
  function IssueToken(codec: JwtCodec, constants: SecurityConstants, auth: Authentication, now1: nat, now2: nat): string {
    codec.sign(SigningKey(constants), BuildClaims(auth, now1, now2))
  }

  /** The response headers the filter may write. */
  class HttpResponse {
    var headers: map<string, string>

    constructor ()
      ensures headers == map[]
    {
      headers := map[];
    }
  }

  /**
   * `doFilterInternal`: with an authentication in the context, write the signed
   * token to the token header; without one, write nothing. The chain always continues.
   */
  method DoFilterInternal(codec: JwtCodec, constants: SecurityConstants, authentication: Option<Authentication>,
                          response: HttpResponse, now1: nat, now2: nat) returns (continueChain: bool)
    modifies response
    ensures continueChain
    ensures authentication.None? ==> response.headers == old(response.headers)
    ensures authentication.Some? ==>
      response.headers == old(response.headers)[constants.jwtHeader := IssueToken(codec, constants, authentication.value, now1, now2)]
  {
    if authentication.Some? {
      var auth := authentication.value;
      var authorities := PopulateAuthorities(auth.authorities);
      var claims := Jws(ISSUER, SUBJECT, map[USERNAME_CLAIM := Text(Name(auth)), AUTHORITIES_CLAIM := Text(authorities)],
                        NumericDate(now1), NumericDate(now2 + VALIDITY_MILLIS));
      var jwtToken := codec.sign(SigningKey(constants), claims);
      response.headers := response.headers[constants.jwtHeader := jwtToken];
    }
    continueChain := true;
  }
}
