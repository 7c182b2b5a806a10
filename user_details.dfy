/**
 * `CustomerUserDetailsService.loadUserByUsername`: the user row for an email,
 * turned into Spring's `UserDetails` with a single role authority.
 */
module CustomerUserDetailsService {
  import opened Wrappers
  import opened Strings
  import opened Exceptions
  import opened Users

  /** Spring's `User` details object: username, stored password, granted authority names. */
  datatype UserDetails = UserDetails(username: string, password: string, authorities: seq<string>)

  const DETAILS_NOT_FOUND := "User Details not found with this email: "
  /** What the `User` details constructor throws for a null or empty username or a null password. */
  const EMPTY_VALUES := "Cannot pass null or empty values to constructor"
  const ROLE_PREFIX := "ROLE_"

  /** The authority derived from a stored role: `"ROLE_" + role.toUpperCase()`. */
  function RoleAuthority(role: string): (a: string)
    ensures StartsWith(a, ROLE_PREFIX) && |a| == |ROLE_PREFIX| + |role|
    ensures forall i :: |ROLE_PREFIX| <= i < |a| ==> !('a' <= a[i] <= 'z')
  {
    ROLE_PREFIX + ToUpper(role)
  }

  /** Roles that differ only in case give the same authority. */
  lemma RoleAuthorityIgnoresCase(r1: string, r2: string)
    requires |r1| == |r2|
    requires forall i :: 0 <= i < |r1| ==> UpperChar(r1[i]) == UpperChar(r2[i])
    ensures RoleAuthority(r1) == RoleAuthority(r2)
  {
    assert ToUpper(r1) == ToUpper(r2);
  }

  /**
   * Look the email up; an unknown one is a bad credential. A row without role
   * throws on `toUpperCase`; an empty email or a null password is refused by
   * the details constructor.
   */
  function LoadUserByUsername(users: seq<User>, email: string): (r: Result<UserDetails, Exception>)
    ensures LookupEmail(users, email).None? <==> r == Err(BadCredentialsException(DETAILS_NOT_FOUND + email))
    ensures r.Ok? ==> r.value.username == email && |r.value.authorities| == 1
    ensures r.Ok? ==>
      exists i :: 0 <= i < |users| && users[i].email == Some(email) &&
        users[i].password == Some(r.value.password) && users[i].role.Some? &&
        r.value.authorities == [RoleAuthority(users[i].role.value)]
  {
    match LookupEmail(users, email)
    case None => Err(BadCredentialsException(DETAILS_NOT_FOUND + email))
    case Some(u) =>
      if u.role.None? then Err(NullPointerException)
      else if email == "" || u.password.None? then Err(IllegalArgumentException(EMPTY_VALUES))
      else Ok(UserDetails(email, u.password.value, [RoleAuthority(u.role.value)]))
  }

  /**
   * In a well-formed table every stored user loads: the details carry its own
   * email, its stored (already encoded) password and exactly its role authority.
   */
  lemma LoadStoredUser(users: seq<User>, i: int)
    requires WellFormed(users) && 0 <= i < |users|
    ensures var u := users[i];
      LoadUserByUsername(users, u.email.value) ==
        Ok(UserDetails(u.email.value, u.password.value, ["ROLE_" + ToUpper(u.role.value)]))
  {
    LookupStoredEmail(users, i);
    assert users[i].email.value != "" by {
      assert HasVisible(users[i].email.value);
    }
  }

  /** On a well-formed table loading fails only for an email no row holds. */
  lemma LoadFailsOnlyForUnknown(users: seq<User>, email: string)
    requires WellFormed(users)
    ensures LoadUserByUsername(users, email).Err? <==> forall i :: 0 <= i < |users| ==> users[i].email != Some(email)
  {
    if LoadUserByUsername(users, email).Err? && LookupEmail(users, email).Some? {
      var i :| 0 <= i < |users| && users[i] == LookupEmail(users, email).value;
      LoadStoredUser(users, i);
    }
  }
}
