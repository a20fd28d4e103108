/**
 * User accounts: casting a request document onto the user schema (trimming, defaults,
 * validators, unknown keys dropped), and the unique indexes.
 */
module Users {
  import opened Wrappers
  import Text
  import opened Patterns

  // ---------------------------------------------------------------------
  // The user schema

  /** A value of a request document: a string, an integral JSON number or
    * a boolean. */
  datatype Field = Str(s: string) | Num(n: int) | Flag(b: bool)

  /** The keys of a request document: the paths of the user schema, and
    * any other key. */
  datatype Key = NameKey | EmailKey | PhoneKey | PhotoKey | UidKey | ProviderKey | RoleKey | BlockedKey
               | SubscriptionKey | OtherKey(name: string)

  type Doc = map<Key, Field>

  /** The schema paths a document can break. */
  datatype Path = NamePath | EmailPath | PhonePath | UidPath | RolePath | BlockedPath | SubscriptionPath

  datatype User = User(id: nat, name: Option<string>, email: Option<string>, phone: Option<string>,
                       photo: Option<string>, firebaseUid: string, provider: Option<string>, role: string,
                       isBlocked: bool, isSubscriptionActive: bool)

  /** `s.length`: JavaScript counts UTF-16 code units, so a character
    * outside the Basic Multilingual Plane counts twice. */
  function Utf16Length(s: string): (n: nat)
    ensures |s| <= n <= 2 * |s|
    ensures (forall i :: 0 <= i < |s| ==> s[i] as int <= 0xFFFF) ==> n == |s|
    ensures (forall i :: 0 <= i < |s| ==> s[i] as int > 0xFFFF) ==> n == 2 * |s|
    decreases |s|
  {
    if |s| == 0 then 0 else (if s[0] as int > 0xFFFF then 2 else 1) + Utf16Length(s[1..])
  }

  const MaxName: nat := 50

  predicate IsRole(r: string) { r == "user" || r == "admin" }

  /** A string path casts a number to its decimal text and a boolean to
    * its name. */
  function StrOf(f: Field): string {
    match f
    case Str(s) => s
    case Num(n) => Text.IntToString(n)
    case Flag(b) => if b then "true" else "false"
  }

  function TextAt(doc: Doc, key: Key): Option<string> {
    if key in doc then Some(StrOf(doc[key])) else None
  }

  /** A boolean path casts the numbers 1 and 0 and the strings the schema
    * library accepts. */
  function BoolOf(f: Field): Option<bool> {
    match f
    case Flag(b) => Some(b)
    case Num(n) => if n == 1 then Some(true) else if n == 0 then Some(false) else None
    case Str(s) =>
      if s == "true" || s == "1" || s == "yes" then Some(true)
      else if s == "false" || s == "0" || s == "no" then Some(false)
      else None
  }

  function FlagAt(doc: Doc, key: Key): Option<bool> {
    if key in doc then BoolOf(doc[key]) else Some(false)
  }

  function TrimOpt(v: Option<string>): Option<string> {
    if v.Some? then Some(Text.Trim(v.value)) else None
  }

  /** Whether `doc` breaks the schema at path `p`: a name longer than fifty
    * UTF-16 code units once trimmed, a non-empty e-mail or phone off its pattern
    * (the pattern validator lets the empty string through), a
    * missing or empty firebase uid, a role outside the enumeration, a flag
    * that does not cast. */
  predicate Breaks(doc: Doc, p: Path) {
    BreaksWith(p, TextAt(doc, KeyOf(p)), FlagAt(doc, KeyOf(p)))
  }

  /** Whether path `p` is broken by the text and the cast flag its key
    * holds. */
  predicate BreaksWith(p: Path, text: Option<string>, flag: Option<bool>) {
    match p
    case NamePath => TrimOpt(text).Some? && Utf16Length(TrimOpt(text).value) > MaxName
    case EmailPath => text.Some? && |text.value| > 0 && !Email(text.value)
    case PhonePath => text.Some? && |text.value| > 0 && !Phone(text.value)
    case UidPath => text.None? || |text.value| == 0
    case RolePath => text.Some? && !IsRole(text.value)
    case BlockedPath => flag.None?
    case SubscriptionPath => flag.None?
  }

  /** `[p]` when `doc` breaks path `p`, otherwise nothing. */
  function Part(doc: Doc, p: Path): seq<Path> {
    if Breaks(doc, p) then [p] else []
  }

  lemma PartIff(doc: Doc, p: Path, q: Path)
    ensures p in Part(doc, q) <==> p == q && Breaks(doc, p)
  {
  }

  /** The paths of `doc` that break the schema, in schema order. */
  function Violations(doc: Doc): seq<Path> {
    Part(doc, NamePath) + Part(doc, EmailPath) + Part(doc, PhonePath) + Part(doc, UidPath)
    + Part(doc, RolePath) + Part(doc, BlockedPath) + Part(doc, SubscriptionPath)
  }

  /** A path is reported exactly when the document breaks it. */
  lemma ViolationsSpec(doc: Doc)
    ensures forall p :: p in Violations(doc) <==> Breaks(doc, p)
  {
    forall p
      ensures p in Violations(doc) <==> Breaks(doc, p)
    {
      PartIff(doc, p, NamePath);
      PartIff(doc, p, EmailPath);
      PartIff(doc, p, PhonePath);
      PartIff(doc, p, UidPath);
      PartIff(doc, p, RolePath);
      PartIff(doc, p, BlockedPath);
      PartIff(doc, p, SubscriptionPath);
    }
  }

  const NameTooLong: string := "Name can not be more than 50 characters"
  const BadEmail: string := "Please add a valid email"
  const BadPhone: string := "Please add a valid phone number"

  /** The name of path `p` in the schema. */
  function PathName(p: Path): string {
    match p
    case NamePath => "name"
    case EmailPath => "email"
    case PhonePath => "phone"
    case UidPath => "firebaseUid"
    case RolePath => "role"
    case BlockedPath => "isBlocked"
    case SubscriptionPath => "isSubscriptionActive"
  }

  /** The key that sets path `p`. */
  function KeyOf(p: Path): Key {
    match p
    case NamePath => NameKey
    case EmailPath => EmailKey
    case PhonePath => PhoneKey
    case UidPath => UidKey
    case RolePath => RoleKey
    case BlockedPath => BlockedKey
    case SubscriptionPath => SubscriptionKey
  }

  /** A value as a cast error quotes it, with its JavaScript type. */
  function Quoted(f: Field): string {
    match f
    case Str(s) => "\"" + s + "\" (type string)"
    case Num(n) => "\"" + Text.IntToString(n) + "\" (type number)"
    case Flag(_) => "\"" + StrOf(f) + "\" (type boolean)"
  }

  /** The message of the error at path `p` of `doc`: the schema's own
    * message for the name, e-mail and phone, the schema library's default
    * one for the required uid and the role enumeration, and the cast error
    * of a flag. */
  function PathMessage(doc: Doc, p: Path): string {
    match p
    case NamePath => NameTooLong
    case EmailPath => BadEmail
    case PhonePath => BadPhone
    case UidPath => "Path `firebaseUid` is required."
    case RolePath => "`" + TextAt(doc, RoleKey).GetOr("") + "` is not a valid enum value for path `role`."
    case BlockedPath => FlagCastMessage(doc, p)
    case SubscriptionPath => FlagCastMessage(doc, p)
  }

  function FlagCastMessage(doc: Doc, p: Path): string {
    var v := if KeyOf(p) in doc then Quoted(doc[KeyOf(p)]) else "\"undefined\"";
    "Cast to Boolean failed for value " + v + " at path \"" + PathName(p) + "\" because of \"CastError\""
  }

  /** A validation error's message after its prefix: `path: message` for
    * each path of `ps`, joined by ", ". */
  function Report(doc: Doc, ps: seq<Path>): string
    decreases |ps|
  {
    if |ps| == 0 then ""
    else
      var line := PathName(ps[0]) + ": " + PathMessage(doc, ps[0]);
      if |ps| == 1 then line else line + ", " + Report(doc, ps[1..])
  }

  /** A user the schema accepts: a name of at most fifty UTF-16 code units,
    * a non-empty e-mail or phone only within its pattern, a non-empty uid
    * and a listed role. */
  predicate Sound(u: User) {
    (u.name.Some? ==> Utf16Length(u.name.value) <= MaxName)
    && (u.email.Some? && |u.email.value| > 0 ==> Email(u.email.value))
    && (u.phone.Some? && |u.phone.value| > 0 ==> Phone(u.phone.value))
    && |u.firebaseUid| > 0 && IsRole(u.role)
  }

  /** `new User(doc)` followed by validation: keys the schema does not
    * declare are dropped, the name is trimmed, and the role and flags
    * take their defaults. */
  function Cast(doc: Doc, id: nat): (r: Result<User, seq<Path>>)
    ensures r.Ok? <==> |Violations(doc)| == 0
    ensures r.Err? ==> r.error == Violations(doc)
    ensures r.Ok? ==>
      r.value.id == id && Some(r.value.firebaseUid) == TextAt(doc, UidKey) && |r.value.firebaseUid| > 0
      && r.value.name == TrimOpt(TextAt(doc, NameKey))
      && (r.value.name.Some? ==> Utf16Length(r.value.name.value) <= MaxName)
      && r.value.email == TextAt(doc, EmailKey) && (r.value.email.Some? && |r.value.email.value| > 0 ==> Email(r.value.email.value))
      && r.value.phone == TextAt(doc, PhoneKey) && (r.value.phone.Some? && |r.value.phone.value| > 0 ==> Phone(r.value.phone.value))
      && r.value.photo == TextAt(doc, PhotoKey) && r.value.provider == TextAt(doc, ProviderKey)
      && IsRole(r.value.role) && r.value.role == (if RoleKey in doc then StrOf(doc[RoleKey]) else "user")
      && Some(r.value.isBlocked) == FlagAt(doc, BlockedKey)
      && Some(r.value.isSubscriptionActive) == FlagAt(doc, SubscriptionKey)
    ensures r.Ok? ==> Sound(r.value)
  {
    ViolationsSpec(doc);
    var v := Violations(doc);
    var uid, blocked, subscribed := TextAt(doc, UidKey), FlagAt(doc, BlockedKey), FlagAt(doc, SubscriptionKey);
    if |v| > 0 || uid.None? || blocked.None? || subscribed.None? then Err(v)
    else
      Ok(User(id, TrimOpt(TextAt(doc, NameKey)), TextAt(doc, EmailKey), TextAt(doc, PhoneKey), TextAt(doc, PhotoKey),
              uid.value, TextAt(doc, ProviderKey), if RoleKey in doc then StrOf(doc[RoleKey]) else "user",
              blocked.value, subscribed.value))
  }

  /** A name of more than twenty-five characters, all outside the Basic
    * Multilingual Plane, is over fifty UTF-16 code units: it is refused even
    * when it has fewer than fifty characters. */
  lemma AstralNameRefused(name: string, uid: string)
    requires |uid| > 0 && 25 < |name|
    requires forall i :: 0 <= i < |name| ==> name[i] as int > 0xFFFF
    ensures Cast(map[NameKey := Str(name), UidKey := Str(uid)], 0) == Err([NamePath])
  {
    var doc := map[NameKey := Str(name), UidKey := Str(uid)];
    assert Part(doc, NamePath) == [NamePath] by {
      Text.TrimStartOfClean(name);
      Text.TrimEndOfClean(name);
      assert Utf16Length(name) > MaxName;
      assert TextAt(doc, NameKey) == Some(name);
    }
    OnlyNameChecked(name, uid);
  }

  /** A document holding only a name and a non-empty uid can break no path
    * but the name. */
  lemma OnlyNameChecked(name: string, uid: string)
    requires |uid| > 0
    ensures var doc := map[NameKey := Str(name), UidKey := Str(uid)];
      Violations(doc) == Part(doc, NamePath)
  {
    var doc := map[NameKey := Str(name), UidKey := Str(uid)];
    assert TextAt(doc, UidKey) == Some(uid);
    assert TextAt(doc, EmailKey).None? && TextAt(doc, PhoneKey).None? && TextAt(doc, RoleKey).None?;
    assert Part(doc, EmailPath) == Part(doc, PhonePath) == Part(doc, UidPath) == Part(doc, RolePath) == [];
    assert FlagAt(doc, BlockedKey) == Some(false) && FlagAt(doc, SubscriptionKey) == Some(false);
    assert Part(doc, BlockedPath) == Part(doc, SubscriptionPath) == [];
  }

  /** The value a stored user holds at a schema key. */
  function Stored(u: User, k: Key): Option<Field> {
    match k
    case NameKey => if u.name.Some? then Some(Str(u.name.value)) else None
    case EmailKey => if u.email.Some? then Some(Str(u.email.value)) else None
    case PhoneKey => if u.phone.Some? then Some(Str(u.phone.value)) else None
    case PhotoKey => if u.photo.Some? then Some(Str(u.photo.value)) else None
    case UidKey => Some(Str(u.firebaseUid))
    case ProviderKey => if u.provider.Some? then Some(Str(u.provider.value)) else None
    case RoleKey => Some(Str(u.role))
    case BlockedKey => Some(Flag(u.isBlocked))
    case SubscriptionKey => Some(Flag(u.isSubscriptionActive))
    case OtherKey(_) => None
  }

  const SchemaKeys: set<Key> :=
    {NameKey, EmailKey, PhoneKey, PhotoKey, UidKey, ProviderKey, RoleKey, BlockedKey, SubscriptionKey}

  /** The document a stored user is read back as. */
  function DocOf(u: User): (d: Doc)
    ensures forall k :: k in d <==> k in SchemaKeys && Stored(u, k).Some?
    ensures forall k :: k in d ==> d[k] == Stored(u, k).value
  {
    map k | k in SchemaKeys && Stored(u, k).Some? :: Stored(u, k).value
  }

  /** Whether an update sets path `p` to a value that breaks it. */
  predicate Refuses(changes: Doc, p: Path) {
    KeyOf(p) in changes && Breaks(changes, p)
  }

  function Refused(changes: Doc, p: Path): seq<Path> {
    if Refuses(changes, p) then [p] else []
  }

  lemma RefusedIff(changes: Doc, p: Path, q: Path)
    ensures p in Refused(changes, q) <==> p == q && Refuses(changes, p)
  {
  }

  lemma RefusedSpec(changes: Doc)
    ensures forall p :: Refuses(changes, p) <==>
      p in Refused(changes, BlockedPath) + Refused(changes, SubscriptionPath) + Refused(changes, NamePath)
        + Refused(changes, EmailPath) + Refused(changes, PhonePath) + Refused(changes, UidPath)
        + Refused(changes, RolePath)
  {
    forall p
      ensures Refuses(changes, p) <==>
        p in Refused(changes, BlockedPath) + Refused(changes, SubscriptionPath) + Refused(changes, NamePath)
          + Refused(changes, EmailPath) + Refused(changes, PhonePath) + Refused(changes, UidPath)
          + Refused(changes, RolePath)
    {
      RefusedIff(changes, p, BlockedPath);
      RefusedIff(changes, p, SubscriptionPath);
      RefusedIff(changes, p, NamePath);
      RefusedIff(changes, p, EmailPath);
      RefusedIff(changes, p, PhonePath);
      RefusedIff(changes, p, UidPath);
      RefusedIff(changes, p, RolePath);
    }
  }

  /** The prefix of the error the update validators raise. */
  const UpdateFailed: string := "Validation failed"

  /** What `findByIdAndUpdate(id, changes, { runValidators: true })` fails
    * with before the query is sent, `None` when it goes through: first a
    * flag that does not cast fails the cast of the update with a bare cast
    * error; then the validators of the paths the update sets run, and only
    * those, so a required path the update leaves alone is not checked. */
  function UpdateError(changes: Doc): (r: Option<string>)
    ensures r.None? <==> forall p :: !Refuses(changes, p)
    ensures Refuses(changes, BlockedPath) ==> r == Some(PathMessage(changes, BlockedPath))
    ensures !Refuses(changes, BlockedPath) && Refuses(changes, SubscriptionPath)
            ==> r == Some(PathMessage(changes, SubscriptionPath))
    ensures r.Some? && !Refuses(changes, BlockedPath) && !Refuses(changes, SubscriptionPath)
            ==> Text.StartsWith(r.value, UpdateFailed + ": ")
  {
    var bad := Refused(changes, BlockedPath) + Refused(changes, SubscriptionPath);
    var invalid := Refused(changes, NamePath) + Refused(changes, EmailPath) + Refused(changes, PhonePath)
      + Refused(changes, UidPath) + Refused(changes, RolePath);
    RefusedSpec(changes);
    if |bad| > 0 then Some(PathMessage(changes, bad[0]))
    else if |invalid| > 0 then
      var r := UpdateFailed + ": " + Report(changes, invalid);
      assert r[..|UpdateFailed + ": "|] == UpdateFailed + ": ";
      Some(r)
    else None
  }

  /** An update setting only a phone off its pattern fails the validators
    * with the phone's message. */
  lemma PhoneUpdateRefused(phone: string)
    requires |phone| > 0 && !Phone(phone)
    ensures UpdateError(map[PhoneKey := Str(phone)]) == Some(UpdateFailed + ": phone: " + BadPhone)
  {
    var changes := map[PhoneKey := Str(phone)];
    assert Refused(changes, PhonePath) == [PhonePath];
    assert Refused(changes, BlockedPath) == Refused(changes, SubscriptionPath) == [];
    assert Refused(changes, NamePath) == Refused(changes, EmailPath) == [];
    assert Refused(changes, UidPath) == Refused(changes, RolePath) == [];
    var tail := "phone: " + BadPhone;
    assert Report(changes, [PhonePath]) == tail;
    assert UpdateFailed + ": " + tail == UpdateFailed + ": phone: " + BadPhone;
  }

  /** The text at `k` when the update carries `k`, else `was`. */
  function Over(changes: Doc, k: Key, was: Option<string>): Option<string> {
    if k in changes then TextAt(changes, k) else was
  }

  /** The stored value a schema key of an update becomes. */
  function CastValue(k: Key, f: Field): Field {
    if k == NameKey then Str(Text.Trim(StrOf(f)))
    else if k == BlockedKey || k == SubscriptionKey then Flag(BoolOf(f).GetOr(false))
    else Str(StrOf(f))
  }

  /** The schema keys of an update, as they are stored. */
  function Casted(changes: Doc): Doc {
    map k | k in changes && k in SchemaKeys :: CastValue(k, changes[k])
  }

  /** The flags of an update that went through cast. */
  lemma FlagsCast(changes: Doc)
    requires UpdateError(changes).None?
    ensures BlockedKey in changes ==> BoolOf(changes[BlockedKey]).Some?
    ensures SubscriptionKey in changes ==> BoolOf(changes[SubscriptionKey]).Some?
  {
    assert !Refuses(changes, BlockedPath) && !Refuses(changes, SubscriptionPath);
  }

  /** The update once it cast and validated: the `$set` of the keys it
    * carries, with nothing validated again. */
  function Apply(u: User, changes: Doc): User
    requires UpdateError(changes).None?
  {
    FlagsCast(changes);
    User(u.id, if NameKey in changes then TrimOpt(TextAt(changes, NameKey)) else u.name,
         Over(changes, EmailKey, u.email), Over(changes, PhoneKey, u.phone), Over(changes, PhotoKey, u.photo),
         if UidKey in changes then StrOf(changes[UidKey]) else u.firebaseUid, Over(changes, ProviderKey, u.provider),
         if RoleKey in changes then StrOf(changes[RoleKey]) else u.role,
         if BlockedKey in changes then BoolOf(changes[BlockedKey]).value else u.isBlocked,
         if SubscriptionKey in changes then BoolOf(changes[SubscriptionKey]).value else u.isSubscriptionActive)
  }

  /** The stored document after an update is the one before with the
    * update's schema keys laid over it, as cast; the id is kept. */
  lemma ApplyOverlays(u: User, changes: Doc)
    requires UpdateError(changes).None?
    ensures Apply(u, changes).id == u.id
    ensures DocOf(Apply(u, changes)) == DocOf(u) + Casted(changes)
  {
    var v := Apply(u, changes);
    var l, r := DocOf(v), DocOf(u) + Casted(changes);
    forall k
      ensures (k in l <==> k in r) && (k in l ==> l[k] == r[k])
    {
      ApplyStored(u, changes, k);
    }
  }

  lemma ApplyStored(u: User, changes: Doc, k: Key)
    requires UpdateError(changes).None?
    ensures Stored(Apply(u, changes), k)
            == if k in changes && k in SchemaKeys then Some(CastValue(k, changes[k])) else Stored(u, k)
  {
    FlagsCast(changes);
    match k
    case NameKey =>
    case EmailKey =>
    case PhoneKey =>
    case PhotoKey =>
    case UidKey =>
    case ProviderKey =>
    case RoleKey =>
    case BlockedKey =>
    case SubscriptionKey =>
    case OtherKey(_) =>
  }

  /** An update the validators accept keeps a user the schema accepts. */
  lemma ApplyKeepsSound(u: User, changes: Doc)
    requires Sound(u) && UpdateError(changes).None?
    ensures Sound(Apply(u, changes))
  {
    assert !Refuses(changes, NamePath) && !Refuses(changes, EmailPath) && !Refuses(changes, PhonePath);
    assert !Refuses(changes, UidPath) && !Refuses(changes, RolePath);
  }

  // ---------------------------------------------------------------------
  // The unique indexes

  /** The unique indexes of the user schema (e-mail, phone and firebase
    * uid) as written: they are not sparse, so an absent value is indexed
    * too and two users without a phone clash. */
  predicate CollideAsWritten(v: User, u: User) {
    v.email == u.email || v.phone == u.phone || v.firebaseUid == u.firebaseUid
  }

  /** The indexes as evidently meant: only present values must be unique. */
  predicate Collide(v: User, u: User) {
    (v.email.Some? && v.email == u.email) || (v.phone.Some? && v.phone == u.phone) || v.firebaseUid == u.firebaseUid
  }

  predicate ClashAsWritten(users: seq<User>, u: User) {
    exists k :: 0 <= k < |users| && CollideAsWritten(users[k], u)
  }

  predicate Clash(users: seq<User>, u: User) {
    exists k :: 0 <= k < |users| && Collide(users[k], u)
  }

  /** No two stored users share a present e-mail, a present phone or a
    * firebase uid. */
  predicate KeysUnique(users: seq<User>) {
    forall i, j :: 0 <= i < j < |users| ==> !Collide(users[i], users[j])
  }

  /** Adding a user that clashes with no stored user keeps the keys unique. */
  lemma AppendKeepsKeysUnique(users: seq<User>, u: User)
    requires KeysUnique(users) && !Clash(users, u)
    ensures KeysUnique(users + [u])
  {
    var r := users + [u];
    forall i, j | 0 <= i < j < |r|
      ensures !Collide(r[i], r[j])
    {
      if j == |users| {
        assert r[i] == users[i] && r[j] == u;
      }
    }
  }

  /** Two users without a phone number clash as written and not as meant. */
  lemma ClashWitness()
    ensures var a := User(0, None, Some("a@b.com"), None, None, "uid-a", None, "user", false, false);
      var b := User(1, None, Some("b@b.com"), None, None, "uid-b", None, "user", false, false);
      ClashAsWritten([a], b) && !Clash([a], b)
  {
    var a := User(0, None, Some("a@b.com"), None, None, "uid-a", None, "user", false, false);
    var b := User(1, None, Some("b@b.com"), None, None, "uid-b", None, "user", false, false);
    assert CollideAsWritten([a][0], b);
  }

  /** Whatever clashes as meant also clashes as written. */
  lemma ClashWeaker(users: seq<User>, u: User)
    ensures Clash(users, u) ==> ClashAsWritten(users, u)
  {
    if Clash(users, u) {
      var k :| 0 <= k < |users| && Collide(users[k], u);
      assert CollideAsWritten(users[k], u);
    }
  }

  /** The user with firebase uid `uid`, if any. */
  function FindByUid(users: seq<User>, uid: string): (r: Option<User>)
    ensures r.None? <==> forall k :: 0 <= k < |users| ==> users[k].firebaseUid != uid
    ensures r.Some? ==> r.value in users && r.value.firebaseUid == uid
    decreases |users|
  {
    if |users| == 0 then None
    else if users[0].firebaseUid == uid then Some(users[0])
    else FindByUid(users[1..], uid)
  }

  /** The user with id `id`, if any. */
  function FindById(users: seq<User>, id: nat): (r: Option<User>)
    ensures r.None? <==> forall k :: 0 <= k < |users| ==> users[k].id != id
    ensures r.Some? ==> r.value in users && r.value.id == id
    decreases |users|
  {
    if |users| == 0 then None
    else if users[0].id == id then Some(users[0])
    else FindById(users[1..], id)
  }

  /** No two stored users share an id. */
  predicate IdsUnique(users: seq<User>) {
    forall i, j :: 0 <= i < j < |users| ==> users[i].id != users[j].id
  }

  /** `users` with the stored user whose id is `v.id` replaced by `v`. */
  function ReplaceUser(users: seq<User>, v: User): (r: seq<User>)
    ensures |r| == |users|
    ensures forall k :: 0 <= k < |users| ==> r[k] == (if users[k].id == v.id then v else users[k])
  {
    seq(|users|, k requires 0 <= k < |users| => if users[k].id == v.id then v else users[k])
  }

  /** Whether `v` clashes with a stored user other than the one it replaces. */
  predicate ClashOthers(users: seq<User>, v: User) {
    exists k :: 0 <= k < |users| && users[k].id != v.id && Collide(users[k], v)
  }

  /** Replacing a stored user by one that clashes with no other user keeps
    * the ids and the keys unique. */
  lemma ReplaceKeepsUnique(users: seq<User>, v: User)
    requires IdsUnique(users) && KeysUnique(users) && !ClashOthers(users, v)
    ensures IdsUnique(ReplaceUser(users, v)) && KeysUnique(ReplaceUser(users, v))
  {
    var r := ReplaceUser(users, v);
    forall i, j | 0 <= i < j < |r|
      ensures r[i].id != r[j].id && !Collide(r[i], r[j])
    {
      if users[i].id == v.id {
        assert !Collide(users[j], v);
      } else if users[j].id == v.id {
        assert !Collide(users[i], v);
      }
    }
  }

  // ---------------------------------------------------------------------
  // The upcoming-user schema

  datatype UpcomingUser = UpcomingUser(id: nat, name: string, email: string, phone: Option<string>, createdAt: int)

  /** The messages of the paths that break the upcoming-user schema, each
    * as `path: message`: a required name of at most fifty UTF-16 code units
    * once trimmed, a required e-mail of the user pattern, and an optional
    * phone of the phone pattern. */
  function UpcomingViolations(name: Option<string>, email: Option<string>, phone: Option<string>): (r: seq<string>)
    ensures |r| == 0 <==>
      name.Some? && 0 < |Text.Trim(name.value)| && Utf16Length(Text.Trim(name.value)) <= MaxName
      && email.Some? && Email(email.value) && (phone.Some? ==> Phone(phone.value))
  {
    (if name.None? || |Text.Trim(name.value)| == 0 then ["name: Please add a name"]
     else if Utf16Length(Text.Trim(name.value)) > MaxName then ["name: " + NameTooLong] else [])
    + (if email.None? then ["email: Please add an email"] else if !Email(email.value) then ["email: " + BadEmail] else [])
    + (if phone.Some? && !Phone(phone.value) then ["phone: " + BadPhone] else [])
  }
}
