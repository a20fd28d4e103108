/**
 * The waiting list of upcoming users: signing up with a name and an
 * e-mail address once per address, and listing everyone signed up.
 */
module UpcomingUsers {
  import opened Wrappers
  import opened Api
  import Text
  import opened Users

  const Required: string := "Name and email are required"
  const Taken: string := "User with this email already exists"
  const Invalid: string := "UpComingUser validation failed"

  /** `lines.join(", ")`. */
  function Joined(lines: seq<string>): string
    decreases |lines|
  {
    if |lines| == 0 then ""
    else if |lines| == 1 then lines[0]
    else lines[0] + ", " + Joined(lines[1..])
  }

  /** Whether some record holds address `email`. */
  predicate Listed(records: seq<UpcomingUser>, email: string) {
    exists k :: 0 <= k < |records| && records[k].email == email
  }

  /** No address is signed up twice. */
  predicate EmailsUnique(records: seq<UpcomingUser>) {
    forall i, j :: 0 <= i < j < |records| ==> records[i].email != records[j].email
  }

  /** `createUpComingUser`: only the name and the address are passed on, so
    * the record never holds a phone; the name is stored trimmed. */
  function CreateOf(records: seq<UpcomingUser>, nextId: nat, name: Option<string>, email: Option<string>, now: int)
    : (r: (Outcome<UpcomingUser>, seq<UpcomingUser>))
    ensures r.0.Err? ==> r.1 == records
    ensures name.None? || |name.value| == 0 || email.None? || |email.value| == 0 ==> r.0 == Fail(BadRequest, Required)
    ensures r.0.Ok? <==>
      name.Some? && |name.value| > 0 && email.Some? && |email.value| > 0 && !Listed(records, email.value)
      && |UpcomingViolations(name, email, None)| == 0
    ensures r.0.Ok? ==>
      r.0.value == UpcomingUser(nextId, Text.Trim(name.value), email.value, None, now)
      && r.1 == records + [r.0.value]
    ensures name.Some? && |name.value| > 0 && email.Some? && |email.value| > 0 && !Listed(records, email.value)
            && |UpcomingViolations(name, email, None)| > 0
            ==> r.0 == Fail(ServerError, Invalid + ": " + Joined(UpcomingViolations(name, email, None)))
  {
    if name.None? || |name.value| == 0 || email.None? || |email.value| == 0 then (Fail(BadRequest, Required), records)
    else if Listed(records, email.value) then (Fail(BadRequest, Taken), records)
    else
      var broken := UpcomingViolations(name, email, None);
      if |broken| > 0 then (Fail(ServerError, Invalid + ": " + Joined(broken)), records)
      else
        var u := UpcomingUser(nextId, Text.Trim(name.value), email.value, None, now);
        (Ok(u), records + [u])
  }

  /** A stored record has a non-empty name of at most fifty UTF-16 code
    * units and an address of the account pattern. */
  lemma CreatedValid(records: seq<UpcomingUser>, nextId: nat, name: Option<string>, email: Option<string>, now: int)
    requires CreateOf(records, nextId, name, email, now).0.Ok?
    ensures var u := CreateOf(records, nextId, name, email, now).0.value;
      0 < |u.name| && Utf16Length(u.name) <= MaxName && Patterns.Email(u.email) && u.phone.None?
  {
  }

  /** Signing up keeps every address on the list once. */
  lemma CreateKeepsEmailsUnique(records: seq<UpcomingUser>, nextId: nat, name: Option<string>, email: Option<string>,
                                now: int)
    requires EmailsUnique(records)
    ensures EmailsUnique(CreateOf(records, nextId, name, email, now).1)
  {
    var r := CreateOf(records, nextId, name, email, now);
    if r.0.Ok? {
      var s := r.1;
      forall i, j | 0 <= i < j < |s|
        ensures s[i].email != s[j].email
      {
        if j == |records| {
          assert s[i] == records[i];
        }
      }
    }
  }

  /** A new record takes the next id. */
  lemma CreateIdsBelow(records: seq<UpcomingUser>, nextId: nat, name: Option<string>, email: Option<string>, now: int)
    requires forall k :: 0 <= k < |records| ==> records[k].id < nextId
    ensures var r := CreateOf(records, nextId, name, email, now);
      forall k :: 0 <= k < |r.1| ==> r.1[k].id < if r.0.Ok? then nextId + 1 else nextId
  {
    var r := CreateOf(records, nextId, name, email, now);
    if r.0.Ok? {
      forall k | 0 <= k < |r.1|
        ensures r.1[k].id < nextId + 1
      {
        if k < |records| {
          assert r.1[k] == records[k];
        }
      }
    }
  }

  /** Signing up a listed address again is refused and changes nothing. */
  lemma SecondSignUpRefused(records: seq<UpcomingUser>, nextId: nat, nextId': nat, name: Option<string>,
                            email: Option<string>, name': Option<string>, now: int, now': int)
    requires CreateOf(records, nextId, name, email, now).0.Ok?
    requires name'.Some? && |name'.value| > 0
    ensures var records' := CreateOf(records, nextId, name, email, now).1;
      CreateOf(records', nextId', name', email, now') == (Fail(BadRequest, Taken), records')
  {
    var records' := CreateOf(records, nextId, name, email, now).1;
    assert records'[|records|].email == email.value;
  }

  /** The waiting list. */
  class UpcomingStore {
    var records: seq<UpcomingUser>
    var nextId: nat

    ghost predicate Valid()
      reads this
    {
      EmailsUnique(records) && forall k :: 0 <= k < |records| ==> records[k].id < nextId
    }

    constructor ()
      ensures Valid() && records == []
    {
      records := [];
      nextId := 0;
    }

    method Create(name: Option<string>, email: Option<string>, now: int) returns (r: Outcome<UpcomingUser>)
      requires Valid()
      modifies this
      ensures Valid()
      ensures (r, records) == CreateOf(old(records), old(nextId), name, email, now)
    {
      var res := CreateOf(records, nextId, name, email, now);
      CreateKeepsEmailsUnique(records, nextId, name, email, now);
      CreateIdsBelow(records, nextId, name, email, now);
      if res.0.Ok? {
        nextId := nextId + 1;
      }
      r, records := res.0, res.1;
    }

    /** `getAllUpComingUsers`: every record, with the count. */
    method List() returns (count: nat, all: seq<UpcomingUser>)
      ensures all == records && count == |records|
    {
      all := records;
      count := |all|;
    }
  }
}
