/** The request principal handed between the security filters, the services and the controllers. */
module Authentications {
  import opened Wrappers
  import opened Strings

  /**
   * The principal object inside an `Authentication`: the plain user name a
   * token carries, or the `UserDetails` (user name and authority names) that
   * HTTP Basic authentication loaded.
   */
  datatype Principal = NamePrincipal(name: string) | UserPrincipal(username: string, authorities: seq<string>)

  /**
   * An `Authentication`: the principal (null when a token carried no user
   * name), the credentials, and the granted authority names in the order the
   * token lists them.
   */
  datatype Authentication = Authentication(principal: Option<Principal>, credentials: Option<string>, authorities: seq<string>)

  /** `getName()` of Spring's token classes: a `UserDetails`' user name, a plain principal itself, "" for null. */
  function Name(a: Authentication): string {
    match a.principal
    case None => ""
    case Some(NamePrincipal(n)) => n
    case Some(UserPrincipal(u, _)) => u
  }

  /** The pieces of Spring's `User.toString()`, around the user name and the authority list. */
  const USER_HEAD := "org.springframework.security.core.userdetails.User [Username="
  const USER_FLAGS := ", Password=[PROTECTED], Enabled=true, AccountNonExpired=true, CredentialsNonExpired=true, AccountNonLocked=true, Granted Authorities=["
  const USER_TAIL := "]]"

  /**
   * `getPrincipal().toString()`: a plain name is itself; a `UserDetails` prints
   * as Spring's `User.toString()`, its class name and fields in brackets, with
   * the password masked and the account flags the three-argument constructor sets.
   */
  function PrincipalText(p: Principal): string {
    match p
    case NamePrincipal(n) => n
    case UserPrincipal(u, authorities) => USER_HEAD + u + USER_FLAGS + Join(authorities, ", ") + USER_TAIL
  }

  /**
   * Without a principal the name is empty. The name and the string form agree
   * for a token's principal and differ for one that HTTP Basic authentication
   * loaded: that one prints as a `User` description, never as the bare user name.
   */
  lemma NameAndText(a: Authentication)
    ensures a.principal.None? ==> Name(a) == ""
    ensures a.principal.Some? && a.principal.value.NamePrincipal? ==> PrincipalText(a.principal.value) == Name(a)
    ensures a.principal.Some? && a.principal.value.UserPrincipal? ==>
      && Name(a) == a.principal.value.username
      && StartsWith(PrincipalText(a.principal.value), USER_HEAD + Name(a))
      && |PrincipalText(a.principal.value)| > |Name(a)|
  {
    if a.principal.Some? && a.principal.value.UserPrincipal? {
      var head := USER_HEAD + Name(a);
      var list := Join(a.principal.value.authorities, ", ");
      assert head[..|head|] == head;
      StartsWithAppend(head, USER_FLAGS, head);
      StartsWithAppend(head + USER_FLAGS, list, head);
      StartsWithAppend(head + USER_FLAGS + list, USER_TAIL, head);
    }
  }
}
