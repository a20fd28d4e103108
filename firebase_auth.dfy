/**
 * The authorisation decision the firebase middleware takes once the bearer
 * token has been read and verified.  Token verification and the account
 * lookup are foreign: the model takes their results as inputs.
 */
module FirebaseAuth {
  import opened Wrappers
  import opened Api
  import Text
  import opened Users

  /** The claims of a verified ID token that the handlers read. */
  datatype Claims = Claims(uid: string, email: Option<string>, emailVerified: bool, provider: Option<string>)

  /** What verifying the token gave: its claims, an expiry error, or any
    * other error. */
  datatype Verification = Verified(claims: Claims) | ExpiredToken | OtherError

  /** Who the request is let through as: a stored account, or the claims
    * of someone registering, with the role they register under. */
  datatype Admission = Member(user: User) | Newcomer(claims: Claims, defaultRole: string)

  const MissingToken: string := "Please Authenticate!"
  const SessionExpired: string := "Session is expired"
  const AuthFailed: string := "Failed to authenticate"
  const NoAccount: string := "User doesn't exist. Please create account"
  const NoPermission: string := "You don't have permission to access this resource"
  const UserBlocked: string := "User is blocked"

  /** The second space-separated word of the authorization header, if it
    * is there and not empty. */
  function TokenOf(header: Option<string>): (r: Option<string>)
    ensures r.Some? ==> |r.value| > 0 && ' ' !in r.value
  {
    if header.None? then None
    else
      var parts := Text.Split(header.value, ' ');
      Text.SplitPartsFree(header.value, ' ');
      if |parts| >= 2 && |parts[1]| > 0 then Some(parts[1]) else None
  }

  /** A header "<scheme> <token>" yields the token. */
  lemma BearerToken(scheme: string, token: string)
    requires ' ' !in scheme && ' ' !in token && |token| > 0
    ensures TokenOf(Some(scheme + " " + token)) == Some(token)
  {
    Text.SplitAppend(scheme, token, ' ');
    Text.SplitNoSep(scheme, ' ');
    Text.SplitNoSep(token, ' ');
    assert scheme + " " + token == scheme + [' '] + token;
  }

  /** A header with no space in it carries no token. */
  lemma SchemeOnly(header: string)
    requires ' ' !in header
    ensures TokenOf(Some(header)).None?
  {
    Text.SplitNoSep(header, ' ');
  }

  /** Paths on which an unknown account may go through to register. */
  predicate RegisterPath(path: string) {
    path == "/register" || path == "/signup" || Text.Contains(path, "register")
  }

  /** Whether the route's required role lets a user with `role` through. */
  predicate RoleAllowed(requiredRole: string, role: string) {
    !(requiredRole != "any" && role != requiredRole && requiredRole != "both")
  }

  /** The role check, read positively. */
  lemma RoleAllowedIff(requiredRole: string, role: string)
    ensures RoleAllowed(requiredRole, role) <==> requiredRole == "any" || requiredRole == "both" || role == requiredRole
  {
  }

  /** The checks on a stored account.  Each failing check rejects, but a
    * promise settles once, so the first failure in the order role, then
    * blocked, is the one the client sees.  The third check reads
    * `isDeleted`, which the user schema does not declare: on the document
    * `findOne` returns it is `undefined`, so that check never rejects. */
  function CheckMember(u: User, requiredRole: string): (r: Outcome<Admission>)
    ensures r.Ok? <==> RoleAllowed(requiredRole, u.role) && !u.isBlocked
    ensures r.Ok? ==> r.value == Member(u)
    ensures !RoleAllowed(requiredRole, u.role) ==> r == Fail(Forbidden, NoPermission)
    ensures RoleAllowed(requiredRole, u.role) && u.isBlocked ==> r == Fail(Forbidden, UserBlocked)
  {
    if !RoleAllowed(requiredRole, u.role) then Fail(Forbidden, NoPermission)
    else if u.isBlocked then Fail(Forbidden, UserBlocked)
    else Ok(Member(u))
  }

  /** `firebaseAuth(requiredRole)` after the header is read: `account` is
    * the stored account whose firebase uid is the token's, if any. */
  function Authenticate(token: Option<string>, verification: Verification, account: Option<User>,
                        path: string, requiredRole: string): (r: Outcome<Admission>)
  {
    if token.None? then Fail(BadRequest, MissingToken)
    else
      match verification
      case ExpiredToken => Fail(Unauthorized, SessionExpired)
      case OtherError => Fail(Unauthorized, AuthFailed)
      case Verified(claims) =>
        if account.None? then
          if RegisterPath(path) then Ok(Newcomer(claims, if requiredRole == "admin" then "admin" else "user"))
          else Fail(NotFound, NoAccount)
        else CheckMember(account.value, requiredRole)
  }

  /** The reply follows the token: no token is a 400, an expired one a 401
    * with its own message, any other verification error a 401. */
  lemma TokenErrors(token: Option<string>, verification: Verification, account: Option<User>,
                    path: string, requiredRole: string)
    ensures var r := Authenticate(token, verification, account, path, requiredRole);
      (token.None? ==> r == Fail(BadRequest, MissingToken))
      && (token.Some? && verification.ExpiredToken? ==> r == Fail(Unauthorized, SessionExpired))
      && (token.Some? && verification.OtherError? ==> r == Fail(Unauthorized, AuthFailed))
      && (r.Ok? ==> token.Some? && verification.Verified?)
  {
  }

  /** An unknown account is let through exactly on a register path, as a
    * newcomer whose default role is admin exactly when the route requires
    * admin. */
  lemma UnknownAccount(token: string, claims: Claims, path: string, requiredRole: string)
    ensures var r := Authenticate(Some(token), Verified(claims), None, path, requiredRole);
      (r.Ok? <==> RegisterPath(path))
      && (r.Ok? ==> r.value.Newcomer? && r.value.claims == claims
                    && (r.value.defaultRole == "admin" <==> requiredRole == "admin")
                    && IsRole(r.value.defaultRole))
      && (r.Err? ==> r == Fail(NotFound, NoAccount))
  {
  }

  /** A stored account is let through exactly when the role fits and it is
    * not blocked, and then as itself. */
  lemma KnownAccount(token: string, verification: Verification, u: User, path: string,
                     requiredRole: string)
    requires verification.Verified?
    ensures var r := Authenticate(Some(token), verification, Some(u), path, requiredRole);
      (r.Ok? <==> RoleAllowed(requiredRole, u.role) && !u.isBlocked)
      && (r.Ok? ==> r.value == Member(u))
  {
  }

  /** A route that requires admin admits only stored admins and, on a
    * register path, newcomers who become admins. */
  lemma AdminRouteAdminsOnly(token: Option<string>, verification: Verification, account: Option<User>,
                             path: string)
    ensures var r := Authenticate(token, verification, account, path, "admin");
      r.Ok? ==> (r.value.Member? && r.value.user.role == "admin")
                || (r.value.Newcomer? && r.value.defaultRole == "admin")
  {
  }

  /** A blocked account never gets through, whatever the route. */
  lemma BlockedNeverAdmitted(token: Option<string>, verification: Verification, u: User,
                             path: string, requiredRole: string)
    requires u.isBlocked
    ensures Authenticate(token, verification, Some(u), path, requiredRole).Err?
  {
  }

  /** A stored account is never treated as registering, so a register path
    * changes nothing for it. */
  lemma MembersIgnorePath(token: Option<string>, verification: Verification, u: User,
                          p: string, q: string, requiredRole: string)
    ensures Authenticate(token, verification, Some(u), p, requiredRole)
         == Authenticate(token, verification, Some(u), q, requiredRole)
  {
  }
}
