/**
 * Saving the e-mail address of the signed-in account: the address is
 * trimmed and lower-cased, checked against a loose address pattern, and
 * written with the schema validators on.
 */
module SaveEmail {
  import opened Wrappers
  import opened Api
  import Text
  import opened Patterns
  import opened Users

  const EmailRequired: string := "Email is required"
  const InvalidFormat: string := "Invalid email format"
  const EmailRejected: string := "Validation failed: email: Please add a valid email"
  const UserNotFound: string := "User not found"
  const EmailTaken: string := "Email already exists. Try another email."

  /** `email.trim().toLowerCase()`. */
  function Normalize(email: string): string {
    Text.ToLower(Text.Trim(email))
  }

  /** Lower-casing never turns a non-space into a space. */
  lemma LowerCharKeepsSpace(c: char)
    ensures Text.IsSpace(Text.LowerChar(c)) <==> Text.IsSpace(c)
  {
  }

  /** Normalising an address twice is normalising it once. */
  lemma NormalizeIdempotent(email: string)
    ensures Normalize(Normalize(email)) == Normalize(email)
  {
    var t := Text.Trim(email);
    var n := Text.ToLower(t);
    Text.TrimSpec(email);
    if |n| > 0 {
      LowerCharKeepsSpace(t[0]);
      LowerCharKeepsSpace(t[|t| - 1]);
    }
    Text.TrimStartOfClean(n);
    Text.TrimEndOfClean(n);
    Text.ToLowerIdempotent(t);
  }

  /** A normalised address holds no upper-case ASCII letter and neither
    * starts nor ends with whitespace. */
  lemma NormalizedShape(email: string)
    ensures var n := Normalize(email);
      (forall k :: 0 <= k < |n| ==> !('A' <= n[k] <= 'Z'))
      && (|n| > 0 ==> !Text.IsSpace(n[0]) && !Text.IsSpace(n[|n| - 1]))
  {
    var t := Text.Trim(email);
    Text.TrimSpec(email);
    Text.ToLowerIdempotent(t);
    if |t| > 0 {
      LowerCharKeepsSpace(t[0]);
      LowerCharKeepsSpace(t[|t| - 1]);
    }
  }

  /** `saveEmail` for the account with firebase uid `uid`: the reply and
    * the users afterwards. */
  function SaveEmailOf(uid: string, email: Option<string>, users: seq<User>): (r: (Outcome<User>, seq<User>))
    ensures email.None? || |email.value| == 0 ==> r == (Fail(BadRequest, EmailRequired), users)
    ensures r.0.Ok? <==>
      email.Some? && |email.value| > 0 && Email(Normalize(email.value)) && FindByUid(users, uid).Some?
      && !ClashOthers(users, FindByUid(users, uid).value.(email := Some(Normalize(email.value))))
    ensures r.0.Ok? ==>
      r.0.value == FindByUid(users, uid).value.(email := Some(Normalize(email.value)))
      && r.1 == ReplaceUser(users, r.0.value)
    ensures r.0.Err? ==> r.1 == users
  {
    if email.None? || |email.value| == 0 then (Fail(BadRequest, EmailRequired), users)
    else
      var e := Normalize(email.value);
      if !BasicEmail(e) then
        assert !Email(e) by {
          if Email(e) {
            EmailIsBasic(e);
          }
        }
        (Fail(BadRequest, InvalidFormat), users)
      else if !Email(e) then (Fail(ServerError, EmailRejected), users)
      else match FindByUid(users, uid)
        case None => (Fail(NotFound, UserNotFound), users)
        case Some(u) =>
          var v := u.(email := Some(e));
          if ClashOthers(users, v) then (Fail(Conflict, EmailTaken), users) else (Ok(v), ReplaceUser(users, v))
  }

  /** An address with a one-character top level name passes the handler's
    * own check and is refused by the schema: a 500, not a 400. */
  lemma LooseCheckWitness(uid: string, users: seq<User>)
    ensures SaveEmailOf(uid, Some("a@b.c"), users).0 == Fail(ServerError, EmailRejected)
  {
    BasicNotEmail();
    AlreadyNormal("a@b.c");
    LooseCheck(uid, "a@b.c", users);
  }

  /** An address that passes the loose check and not the schema pattern
    * is refused with a 500. */
  lemma LooseCheck(uid: string, email: string, users: seq<User>)
    requires |email| > 0 && BasicEmail(Normalize(email)) && !Email(Normalize(email))
    ensures SaveEmailOf(uid, Some(email), users).0 == Fail(ServerError, EmailRejected)
  {
  }

  /** An address of lower-case letters and punctuation is its own normal form. */
  lemma AlreadyNormal(s: string)
    requires forall k :: 0 <= k < |s| ==> !Text.IsSpace(s[k]) && !('A' <= s[k] <= 'Z')
    ensures Normalize(s) == s
  {
    Text.TrimStartOfClean(s);
    Text.TrimEndOfClean(s);
  }

  /** Looking a uid up after the account holding it was replaced by a
    * version with the same id and uid finds the new version. */
  lemma {:induction false} FindReplaced(users: seq<User>, uid: string, v: User)
    requires FindByUid(users, uid).Some? && FindByUid(users, uid).value.id == v.id && v.firebaseUid == uid
    ensures FindByUid(ReplaceUser(users, v), uid) == Some(v)
    decreases |users|
  {
    var r := ReplaceUser(users, v);
    if users[0].firebaseUid != uid {
      if users[0].id != v.id {
        assert r[1..] == ReplaceUser(users[1..], v);
        FindReplaced(users[1..], uid, v);
      }
    }
  }

  /** Replacing an account by the same version twice is replacing it once. */
  lemma ReplaceTwice(users: seq<User>, v: User)
    ensures ReplaceUser(ReplaceUser(users, v), v) == ReplaceUser(users, v)
  {
  }

  /** Replacing an account leaves every other account as it was, so a
    * version that clashed with none still clashes with none. */
  lemma ReplaceNoClash(users: seq<User>, v: User)
    requires !ClashOthers(users, v)
    ensures !ClashOthers(ReplaceUser(users, v), v)
  {
    var r := ReplaceUser(users, v);
    forall k | 0 <= k < |r| && r[k].id != v.id
      ensures !Collide(r[k], v)
    {
      assert r[k] == users[k];
    }
  }

  /** Saving an address that is already normal, valid and the account's
    * own, where no other account holds it, succeeds and changes nothing. */
  lemma SaveOwnAddress(uid: string, e: string, users: seq<User>, v: User)
    requires Email(e) && Normalize(e) == e && FindByUid(users, uid) == Some(v) && v.email == Some(e)
    requires !ClashOthers(users, v) && ReplaceUser(users, v) == users
    ensures SaveEmailOf(uid, Some(e), users) == (Ok(v), users)
  {
    EmailIsBasic(e);
    assert v.(email := Some(e)) == v;
  }

  /** Saving the saved address again changes nothing and succeeds again. */
  lemma SaveAgain(uid: string, email: Option<string>, users: seq<User>)
    requires SaveEmailOf(uid, email, users).0.Ok?
    ensures var (r, users') := SaveEmailOf(uid, email, users);
      SaveEmailOf(uid, r.value.email, users') == (r, users')
  {
    var (r, users') := SaveEmailOf(uid, email, users);
    var v := r.value;
    var e := Normalize(email.value);
    assert v.email == Some(e) && Email(e) && users' == ReplaceUser(users, v);
    NormalizeIdempotent(email.value);
    FindReplaced(users, uid, v);
    ReplaceNoClash(users, v);
    ReplaceTwice(users, v);
    SaveOwnAddress(uid, e, users', v);
  }
}
