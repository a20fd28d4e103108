/**
 * The account handlers: registering the holder of a verified token,
 * editing an account, and reading an account's profile by firebase uid.
 * Each handler is a function of the stored users giving the reply and the
 * users afterwards; `Accounts.UserStore` applies them.
 */
module AuthController {
  import opened Wrappers
  import opened Api
  import opened Users
  import opened FirebaseAuth
  import opened Patterns

  const AlreadyExists: string := "User already exists"
  const ValidationFailed: string := "User validation failed"
  const DuplicateKey: string := "E11000 duplicate key error"
  const CannotEdit: string := "Unauthorized to edit this user"
  const UserNotFound: string := "User not found"
  const UidRequired: string := "Firebase UID is required"

  /** The key under which the verified-e-mail flag is written; the user
    * schema does not declare it, so casting drops it. */
  const VerifiedKey: Key := OtherKey("isEmailVerified")

  /** `createNewUserObject(claims, role)`: the token's e-mail, uid and sign-in
    * provider, the verified flag (false when the claim is missing) and the
    * role, "user" when none is given.  An absent claim writes no key. */
  function NewUserDoc(claims: Claims, role: Option<string>): (d: Doc)
    ensures UidKey in d && d[UidKey] == Str(claims.uid)
    ensures RoleKey in d && d[RoleKey] == Str(role.GetOr("user"))
    ensures EmailKey in d <==> claims.email.Some?
    ensures EmailKey in d ==> d[EmailKey] == Str(claims.email.value)
    ensures ProviderKey in d <==> claims.provider.Some?
    ensures VerifiedKey in d && d[VerifiedKey] == Flag(claims.emailVerified)
    ensures forall k :: k in d ==> k in {UidKey, RoleKey, EmailKey, ProviderKey, VerifiedKey}
  {
    var base := map[UidKey := Str(claims.uid), RoleKey := Str(role.GetOr("user")),
                    VerifiedKey := Flag(claims.emailVerified)];
    var withEmail := if claims.email.Some? then base[EmailKey := Str(claims.email.value)] else base;
    if claims.provider.Some? then withEmail[ProviderKey := Str(claims.provider.value)] else withEmail
  }

  /** A key the schema does not declare does not change the cast. */
  lemma CastIgnoresOtherKey(doc: Doc, name: string, f: Field, id: nat)
    ensures Cast(doc[OtherKey(name) := f], id) == Cast(doc, id)
  {
    var d := doc[OtherKey(name) := f];
    assert forall k: Key :: !k.OtherKey? ==> TextAt(d, k) == TextAt(doc, k) && FlagAt(d, k) == FlagAt(doc, k);
    SameViewSameViolations(d, doc);
  }

  /** Documents that read alike at every schema key break the same paths. */
  lemma SameViewSameViolations(a: Doc, b: Doc)
    requires forall k: Key :: !k.OtherKey? ==> TextAt(a, k) == TextAt(b, k) && FlagAt(a, k) == FlagAt(b, k)
    ensures Violations(a) == Violations(b)
  {
    assert forall p :: Breaks(a, p) == Breaks(b, p);
  }

  /** A newcomer who sends nothing is stored with the token's uid, e-mail
    * and provider, the role they register under, and neither blocked nor
    * subscribed; the verified flag is not kept. */
  lemma NewcomerDefaults(claims: Claims, role: string, id: nat)
    requires |claims.uid| > 0 && IsRole(role) && (claims.email.Some? ==> Email(claims.email.value))
    ensures var r := Cast(NewUserDoc(claims, Some(role)), id);
      r.Ok? && r.value.firebaseUid == claims.uid && r.value.email == claims.email
      && r.value.provider == claims.provider && r.value.role == role
      && !r.value.isBlocked && !r.value.isSubscriptionActive && r.value.name.None? && r.value.phone.None?
  {
    var d := NewUserDoc(claims, Some(role));
    assert TextAt(d, NameKey).None? && TextAt(d, PhoneKey).None? && TextAt(d, EmailKey) == claims.email;
    assert TextAt(d, UidKey) == Some(claims.uid) && TextAt(d, RoleKey) == Some(role);
    assert FlagAt(d, BlockedKey) == Some(false) && FlagAt(d, SubscriptionKey) == Some(false);
    assert Violations(d) == [];
  }

  /** `registerUser` as written: a stored account gets 409; otherwise the
    * request body is laid over the new-user object and the result is
    * validated and stored, under the unique indexes as they are declared. */
  function RegisterAsWritten(admission: Admission, body: Doc, users: seq<User>, nextId: nat)
    : (r: (Outcome<User>, seq<User>))
    ensures r.0.Ok? ==> r.1 == users + [r.0.value] && !ClashAsWritten(users, r.0.value)
    ensures r.0.Err? ==> r.1 == users
  {
    match admission
    case Member(_) => (Fail(Conflict, AlreadyExists), users)
    case Newcomer(claims, role) =>
      var doc := NewUserDoc(claims, Some(role)) + body;
      match Cast(doc, nextId)
      case Err(broken) => (Fail(ServerError, ValidationFailed + ": " + Report(doc, broken)), users)
      case Ok(u) => if ClashAsWritten(users, u) then (Fail(ServerError, DuplicateKey), users) else (Ok(u), users + [u])
  }

  /** `registerUser` with the unique indexes sparse, as the optional e-mail
    * and phone call for. */
  function RegisterOf(admission: Admission, body: Doc, users: seq<User>, nextId: nat): (r: (Outcome<User>, seq<User>))
    ensures admission.Member? ==> r == (Fail(Conflict, AlreadyExists), users)
    ensures admission.Newcomer? ==>
      var doc := NewUserDoc(admission.claims, Some(admission.defaultRole)) + body;
      Cast(doc, nextId).Err? ==> r.0 == Fail(ServerError, ValidationFailed + ": " + Report(doc, Violations(doc)))
    ensures r.0.Ok? <==>
      admission.Newcomer? && Cast(NewUserDoc(admission.claims, Some(admission.defaultRole)) + body, nextId).Ok?
      && !Clash(users, Cast(NewUserDoc(admission.claims, Some(admission.defaultRole)) + body, nextId).value)
    ensures r.0.Ok? ==>
      Cast(NewUserDoc(admission.claims, Some(admission.defaultRole)) + body, nextId) == Ok(r.0.value)
      && r.1 == users + [r.0.value]
    ensures r.0.Err? ==> r.1 == users
  {
    match admission
    case Member(_) => (Fail(Conflict, AlreadyExists), users)
    case Newcomer(claims, role) =>
      var doc := NewUserDoc(claims, Some(role)) + body;
      match Cast(doc, nextId)
      case Err(broken) => (Fail(ServerError, ValidationFailed + ": " + Report(doc, broken)), users)
      case Ok(u) => if Clash(users, u) then (Fail(ServerError, DuplicateKey), users) else (Ok(u), users + [u])
  }

  /** Registering keeps every present e-mail, phone and uid unique. */
  lemma RegisterKeepsKeysUnique(admission: Admission, body: Doc, users: seq<User>, nextId: nat)
    requires KeysUnique(users)
    ensures KeysUnique(RegisterOf(admission, body, users, nextId).1)
  {
    var r := RegisterOf(admission, body, users, nextId);
    if r.0.Ok? {
      AppendKeepsKeysUnique(users, r.0.value);
    }
  }

  /** The body is not checked against the registration rules, and it is
    * laid over the defaults: a body naming the admin role registers an
    * admin whatever route was taken. */
  lemma BodyRoleWins(claims: Claims, defaultRole: string, body: Doc, users: seq<User>, nextId: nat)
    requires RoleKey in body && body[RoleKey] == Str("admin")
    ensures var r := RegisterOf(Newcomer(claims, defaultRole), body, users, nextId);
      r.0.Ok? ==> r.0.value.role == "admin"
  {
  }

  /** Without a role in the body, a newcomer gets the role the middleware
    * chose for the route. */
  lemma DefaultRoleKept(claims: Claims, defaultRole: string, body: Doc, users: seq<User>, nextId: nat)
    requires RoleKey !in body
    ensures var r := RegisterOf(Newcomer(claims, defaultRole), body, users, nextId);
      r.0.Ok? ==> r.0.value.role == defaultRole
  {
  }

  /** Two newcomers who give no e-mail and no phone: as written the second
    * one is refused on the indexed absent values; as meant it is stored. */
  lemma RegisterWitness()
    ensures var a := User(0, None, None, None, None, "uid-a", None, "user", false, false);
      var c := Claims("uid-b", None, false, None);
      RegisterAsWritten(Newcomer(c, "user"), map[], [a], 1).0 == Fail(ServerError, DuplicateKey)
      && RegisterOf(Newcomer(c, "user"), map[], [a], 1).0.Ok?
  {
    var a := User(0, None, None, None, None, "uid-a", None, "user", false, false);
    var c := Claims("uid-b", None, false, None);
    NewcomerDefaults(c, "user", 1);
    var d := NewUserDoc(c, Some("user"));
    assert d + map[] == d;
    var u := Cast(d, 1).value;
    assert CollideAsWritten([a][0], u);
    assert !Collide([a][0], u);
    assert !Clash([a], u);
  }

  /** Whether `caller` may edit account `id`: their own, or any when admin. */
  predicate MayEdit(caller: User, id: nat) {
    caller.id == id || caller.role == "admin"
  }

  /** `editUserInfo`: the body minus e-mail, firebase uid and role is cast
    * and checked by the update validators, which happens before the
    * account is looked up; the update is then applied to account `id`. */
  function EditOf(caller: User, id: nat, body: Doc, users: seq<User>): (r: (Outcome<User>, seq<User>))
    ensures !MayEdit(caller, id) ==> r == (Fail(Forbidden, CannotEdit), users)
    ensures MayEdit(caller, id) && UpdateError(body - {EmailKey, UidKey, RoleKey}).Some?
            ==> r == (Fail(ServerError, UpdateError(body - {EmailKey, UidKey, RoleKey}).value), users)
    ensures MayEdit(caller, id) && UpdateError(body - {EmailKey, UidKey, RoleKey}).None? && FindById(users, id).None?
            ==> r == (Fail(NotFound, UserNotFound), users)
    ensures r.0.Ok? ==>
      MayEdit(caller, id) && UpdateError(body - {EmailKey, UidKey, RoleKey}).None? && FindById(users, id).Some?
      && Apply(FindById(users, id).value, body - {EmailKey, UidKey, RoleKey}) == r.0.value
      && !ClashOthers(users, r.0.value) && r.1 == ReplaceUser(users, r.0.value)
    ensures r.0.Err? ==> r.1 == users
  {
    if !MayEdit(caller, id) then (Fail(Forbidden, CannotEdit), users)
    else
      var changes := body - {EmailKey, UidKey, RoleKey};
      match UpdateError(changes)
      case Some(message) => (Fail(ServerError, message), users)
      case None =>
        match FindById(users, id)
        case None => (Fail(NotFound, UserNotFound), users)
        case Some(u) =>
          var v := Apply(u, changes);
          if ClashOthers(users, v) then (Fail(ServerError, DuplicateKey), users) else (Ok(v), ReplaceUser(users, v))
  }

  /** An admin sending a phone off its pattern for an unknown account is
    * refused by the update validators, not told the account is missing. */
  lemma EditValidatesFirst(caller: User, id: nat, users: seq<User>)
    requires caller.role == "admin" && FindById(users, id).None?
    ensures EditOf(caller, id, map[PhoneKey := Str("abc")], users).0
            == Fail(ServerError, UpdateFailed + ": phone: " + BadPhone)
  {
    var changes := map[PhoneKey := Str("abc")] - {EmailKey, UidKey, RoleKey};
    assert changes == map[PhoneKey := Str("abc")];
    assert !Phone("abc");
    PhoneUpdateRefused("abc");
    assert MayEdit(caller, id);
  }

  /** An edit never changes the account's id, e-mail, firebase uid or role,
    * whatever the body holds. */
  lemma EditKeepsIdentity(caller: User, id: nat, body: Doc, users: seq<User>)
    ensures var r := EditOf(caller, id, body, users);
      r.0.Ok? ==>
        var u := FindById(users, id).value;
        r.0.value.id == u.id == id && r.0.value.email == u.email && r.0.value.firebaseUid == u.firebaseUid
        && r.0.value.role == u.role
  {
  }

  /** An edit the validators accept keeps a stored account the schema
    * accepts. */
  lemma EditKeepsSound(caller: User, id: nat, body: Doc, users: seq<User>)
    requires forall k :: 0 <= k < |users| ==> Sound(users[k])
    ensures forall k :: 0 <= k < |EditOf(caller, id, body, users).1| ==> Sound(EditOf(caller, id, body, users).1[k])
  {
    var r := EditOf(caller, id, body, users);
    if r.0.Ok? {
      var u := FindById(users, id).value;
      ApplyKeepsSound(u, body - {EmailKey, UidKey, RoleKey});
    }
  }

  /** An edit keeps the ids and the keys unique. */
  lemma EditKeepsUnique(caller: User, id: nat, body: Doc, users: seq<User>)
    requires IdsUnique(users) && KeysUnique(users)
    ensures IdsUnique(EditOf(caller, id, body, users).1) && KeysUnique(EditOf(caller, id, body, users).1)
  {
    var r := EditOf(caller, id, body, users);
    if r.0.Ok? {
      ReplaceKeepsUnique(users, r.0.value);
    }
  }

  /** What `getUserByFirebaseUid` returns of an account. */
  datatype Profile = Profile(id: nat, name: Option<string>, email: Option<string>, phone: Option<string>, role: string)

  /** `getUserByFirebaseUid`. */
  function ProfileOf(uid: string, users: seq<User>): (r: Outcome<Profile>)
    ensures |uid| == 0 ==> r == Fail(BadRequest, UidRequired)
    ensures r.Ok? <==> |uid| > 0 && exists k :: 0 <= k < |users| && users[k].firebaseUid == uid
    ensures r.Err? && |uid| > 0 ==> r == Fail(NotFound, UserNotFound)
    ensures r.Ok? ==> exists k :: (0 <= k < |users| && users[k].firebaseUid == uid
      && r.value == Profile(users[k].id, users[k].name, users[k].email, users[k].phone, users[k].role))
  {
    if |uid| == 0 then Fail(BadRequest, UidRequired)
    else match FindByUid(users, uid)
      case None => Fail(NotFound, UserNotFound)
      case Some(u) => Ok(Profile(u.id, u.name, u.email, u.phone, u.role))
  }
}
