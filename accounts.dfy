/**
 * The user collection the account handlers read and write, and the
 * registration route as a whole: the firebase middleware followed by the
 * register handler.
 */
module Accounts {
  import opened Wrappers
  import opened Api
  import opened Users
  import opened FirebaseAuth
  import opened AuthController
  import SaveEmail
  import LayoutValidation

  /** The stored account holding the token's uid, if the token verified. */
  function Holder(verification: Verification, users: seq<User>): Option<User> {
    if verification.Verified? then FindByUid(users, verification.claims.uid) else None
  }

  /** `POST /register`: the middleware with the user role required, then
    * the content-type gate of `validate(register)` (whose schema checks no
    * body key), then `registerUser`.  `supportedType` says whether the
    * request came as JSON or form data. */
  function RegisterRequest(token: Option<string>, verification: Verification, path: string, body: Doc,
                           supportedType: bool, users: seq<User>, nextId: nat): (r: (Outcome<User>, seq<User>))
    ensures r.0.Err? ==> r.1 == users
    ensures r.0.Ok? ==> |body| == 0 || supportedType
    ensures (Authenticate(token, verification, Holder(verification, users), path, "user").Ok?
             && |body| > 0 && !supportedType)
            ==> r.0.Err? && r.0.error.status == LayoutValidation.UnsupportedMediaType
  {
    match Authenticate(token, verification, Holder(verification, users), path, "user")
    case Err(e) => (Err(e), users)
    case Ok(admission) =>
      match LayoutValidation.TypeGate(|body| > 0, supportedType)
      case Err(e) => (Err(e), users)
      case Ok(_) => RegisterOf(admission, body, users, nextId)
  }

  /** Appending an account whose uid no stored account holds makes it the
    * one found by that uid. */
  lemma FindAppended(users: seq<User>, u: User)
    requires FindByUid(users, u.firebaseUid).None?
    ensures FindByUid(users + [u], u.firebaseUid) == Some(u)
  {
    var r := users + [u];
    var found := FindByUid(r, u.firebaseUid);
    assert r[|users|] == u;
    var k :| 0 <= k < |r| && r[k] == found.value;
    if k < |users| {
      assert r[k] == users[k];
    }
  }

  /** Registering is not repeated: once the holder of a token is
    * registered, the same request stores nothing; it gets 409 unless the
    * body had the new account blocked, which makes it a 403. */
  lemma SecondRegisterConflicts(token: string, claims: Claims, path: string, body: Doc, supportedType: bool,
                                users: seq<User>, nextId: nat, nextId': nat)
    requires UidKey !in body && RoleKey !in body
    requires RegisterRequest(Some(token), Verified(claims), path, body, supportedType, users, nextId).0.Ok?
    ensures var users' := RegisterRequest(Some(token), Verified(claims), path, body, supportedType, users, nextId).1;
      var again := RegisterRequest(Some(token), Verified(claims), path, body, supportedType, users', nextId');
      again.1 == users' && again.0.Err?
      && (BlockedKey !in body ==> again.0 == Fail(Conflict, AlreadyExists))
  {
    var (r, users') := RegisterRequest(Some(token), Verified(claims), path, body, supportedType, users, nextId);
    var u := r.value;
    var doc := NewUserDoc(claims, Some("user")) + body;
    assert FindByUid(users, claims.uid).None?;
    assert Cast(doc, nextId) == Ok(u);
    assert doc[UidKey] == Str(claims.uid) && doc[RoleKey] == Str("user");
    assert BlockedKey !in body ==> BlockedKey !in doc;
    assert u.firebaseUid == claims.uid && u.role == "user";
    FindAppended(users, u);
    assert Holder(Verified(claims), users') == Some(u);
  }

  /** The user collection. */
  class UserStore {
    var users: seq<User>
    var nextId: nat

    /** Ids are unique and below the next one, no present e-mail, present
      * phone or uid is held twice, and every account is one the schema
      * accepts. */
    ghost predicate Valid()
      reads this
    {
      IdsUnique(users) && KeysUnique(users) && (forall k :: 0 <= k < |users| ==> users[k].id < nextId)
      && forall k :: 0 <= k < |users| ==> Sound(users[k])
    }

    constructor ()
      ensures Valid() && users == [] && nextId == 0
    {
      users := [];
      nextId := 0;
    }

    method Register(admission: Admission, body: Doc) returns (r: Outcome<User>)
      requires Valid()
      modifies this
      ensures Valid()
      ensures (r, users) == RegisterOf(admission, body, old(users), old(nextId))
      ensures nextId == if r.Ok? then old(nextId) + 1 else old(nextId)
    {
      var res := RegisterOf(admission, body, users, nextId);
      RegisterKeepsKeysUnique(admission, body, users, nextId);
      if res.0.Ok? {
        assert res.0.value.id == nextId;
        nextId := nextId + 1;
      }
      r, users := res.0, res.1;
    }

    method Edit(caller: User, id: nat, body: Doc) returns (r: Outcome<User>)
      requires Valid()
      modifies this
      ensures Valid()
      ensures (r, users) == EditOf(caller, id, body, old(users)) && nextId == old(nextId)
    {
      var res := EditOf(caller, id, body, users);
      EditKeepsUnique(caller, id, body, users);
      EditKeepsSound(caller, id, body, users);
      r, users := res.0, res.1;
    }

    method StoreEmail(uid: string, email: Option<string>) returns (r: Outcome<User>)
      requires Valid()
      modifies this
      ensures Valid()
      ensures (r, users) == SaveEmail.SaveEmailOf(uid, email, old(users)) && nextId == old(nextId)
    {
      var res := SaveEmail.SaveEmailOf(uid, email, users);
      if res.0.Ok? {
        ReplaceKeepsUnique(users, res.0.value);
        assert Sound(res.0.value) by {
          var k :| 0 <= k < |users| && users[k] == FindByUid(users, uid).value;
        }
      }
      r, users := res.0, res.1;
    }
  }
}
