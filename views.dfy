/**
 * Counting who viewed a brand block.  A visit to a block by a signed-in
 * user bumps the block's view count, records the (block, viewer) pair once,
 * and on the first visit mails the block's owner a lead summary.  The mail
 * service is foreign: the model returns the mail it would be asked to send.
 */
module Views {
  import opened Wrappers
  import opened Api
  import opened BrandBlocks

  /** A stored view: which block, which user. */
  datatype ViewRecord = ViewRecord(id: nat, brandId: nat, userId: nat)

  /** What the handler reads of a user account. */
  datatype Account = Account(name: Option<string>, email: Option<string>, phone: Option<string>)

  /** The lead summary mailed to the owner. */
  datatype Mail = Mail(to: Option<string>, name: string, email: string, phone: string)

  /** What one visit does: the reply the viewer gets, whether the count is
    * bumped, the view record created, and the mail sent. */
  datatype Visit = Visit(reply: Outcome<Option<ViewRecord>>, counted: bool, created: Option<ViewRecord>,
                         mail: Option<Mail>)

  const UnknownBrand: string := "Brand block ID is required"
  const EmailUnreadable: string := "Cannot read properties of null (reading 'email')"

  /** The first record of `user` viewing `brand`, if any. */
  function FindView(records: seq<ViewRecord>, brand: nat, user: nat): (r: Option<ViewRecord>)
    ensures r.None? <==> forall k :: 0 <= k < |records| ==> !(records[k].brandId == brand && records[k].userId == user)
    ensures r.Some? ==> r.value in records && r.value.brandId == brand && r.value.userId == user
    decreases |records|
  {
    if |records| == 0 then None
    else if records[0].brandId == brand && records[0].userId == user then Some(records[0])
    else FindView(records[1..], brand, user)
  }

  /** No (block, viewer) pair is recorded twice. */
  predicate PairsUnique(records: seq<ViewRecord>) {
    forall i, j :: 0 <= i < j < |records| ==>
      !(records[i].brandId == records[j].brandId && records[i].userId == records[j].userId)
  }

  /** A missing field of the viewer reads "Not Provided" for the name and
    * "Not provided" for the others. */
  function OrDefault(v: Option<string>, default: string): (r: string)
    ensures v.Some? && |v.value| > 0 ==> r == v.value
    ensures !(v.Some? && |v.value| > 0) ==> r == default
  {
    if v.Some? && |v.value| > 0 then v.value else default
  }

  function Lead(owner: Account, viewer: Account): Mail {
    Mail(owner.email, OrDefault(viewer.name, "Not Provided"), OrDefault(viewer.email, "Not provided"),
         OrDefault(viewer.phone, "Not provided"))
  }

  /** From the view lookup on: a first visit creates the record and then
    * reads the owner's account to mail it; a missing account fails after
    * the record exists. */
  function Record(records: seq<ViewRecord>, nextId: nat, brand: nat, viewer: nat, owner: nat, account: Account,
                  users: map<nat, Account>): (r: (Outcome<Option<ViewRecord>>, Option<ViewRecord>, Option<Mail>))
  {
    if FindView(records, brand, viewer).Some? then (Ok(None), None, None)
    else
      var v := ViewRecord(nextId, brand, viewer);
      if owner !in users then (Fail(ServerError, EmailUnreadable), Some(v), None)
      else (Ok(Some(v)), Some(v), Some(Lead(users[owner], account)))
  }

  /** `createWhoViewedBrandBlock` with the owner branch returning and the
    * count kept on the block. */
  function VisitOf(blocks: seq<BrandBlock>, records: seq<ViewRecord>, nextId: nat, brand: nat, viewer: nat,
                   account: Account, users: map<nat, Account>): (r: Visit)
    ensures r.created.Some? <==>
      Lookup(blocks, brand).Some? && Lookup(blocks, brand).value.owner.Some?
      && Lookup(blocks, brand).value.owner.value != viewer && FindView(records, brand, viewer).None?
    ensures r.created.Some? ==> r.created.value == ViewRecord(nextId, brand, viewer)
    ensures r.counted <==>
      Lookup(blocks, brand).Some? && Lookup(blocks, brand).value.owner.Some?
      && Lookup(blocks, brand).value.owner.value != viewer
    ensures r.mail.Some? ==> r.created.Some?
    ensures Lookup(blocks, brand).None? ==> r.reply == Fail(BadRequest, UnknownBrand)
  {
    match Lookup(blocks, brand)
    case None => Visit(Fail(BadRequest, UnknownBrand), false, None, None)
    case Some(b) =>
      if b.owner.None? then Visit(Fail(ServerError, OwnerUnreadable), false, None, None)
      else if b.owner.value == viewer then Visit(Ok(None), false, None, None)
      else
        var (reply, created, mail) := Record(records, nextId, brand, viewer, b.owner.value, account, users);
        Visit(reply, true, created, mail)
  }

  /** `createWhoViewedBrandBlock` as written.  The owner branch sends its
    * reply but does not return, so an owner's own visit goes on to be
    * recorded and mailed to that owner; the later reply fails unseen since
    * the first one is already sent.  The count is bumped on a path the
    * block schema does not have, so it is never stored. */
  function VisitAsWritten(blocks: seq<BrandBlock>, records: seq<ViewRecord>, nextId: nat, brand: nat, viewer: nat,
                          account: Account, users: map<nat, Account>): (r: Visit)
    ensures !r.counted
    ensures r.created.Some? <==>
      Lookup(blocks, brand).Some? && Lookup(blocks, brand).value.owner.Some? && FindView(records, brand, viewer).None?
  {
    match Lookup(blocks, brand)
    case None => Visit(Fail(BadRequest, UnknownBrand), false, None, None)
    case Some(b) =>
      if b.owner.None? then Visit(Fail(ServerError, OwnerUnreadable), false, None, None)
      else
        var (reply, created, mail) := Record(records, nextId, brand, viewer, b.owner.value, account, users);
        Visit(if b.owner.value == viewer then Ok(None) else reply, false, created, mail)
  }

  /** Where the two differ: an owner's first visit to their own block is
    * recorded, and mailed to them if their account exists, only as
    * written; a visit by anyone else is counted only as intended; on every
    * other point they agree. */
  lemma VisitDiscrepancy(blocks: seq<BrandBlock>, records: seq<ViewRecord>, nextId: nat, brand: nat, viewer: nat,
                         account: Account, users: map<nat, Account>)
    ensures var w := VisitAsWritten(blocks, records, nextId, brand, viewer, account, users);
      var v := VisitOf(blocks, records, nextId, brand, viewer, account, users);
      w.reply == v.reply
      && (Lookup(blocks, brand).Some? && Lookup(blocks, brand).value.owner == Some(viewer) ==>
            v.created.None? && v.mail.None?
            && (FindView(records, brand, viewer).None? ==>
                  w.created == Some(ViewRecord(nextId, brand, viewer))
                  && (viewer in users ==> w.mail == Some(Lead(users[viewer], account)))))
      && (!(Lookup(blocks, brand).Some? && Lookup(blocks, brand).value.owner == Some(viewer)) ==>
            w.created == v.created && w.mail == v.mail)
  {
  }

  /** A concrete visit: the owner (user 7) of block 3 views it for the
    * first time. */
  lemma OwnerVisitWitness(b: BrandBlock, account: Account)
    requires b.id == 3 && b.owner == Some(7)
    ensures VisitAsWritten([b], [], 0, 3, 7, account, map[7 := account]).mail.Some?
    ensures VisitOf([b], [], 0, 3, 7, account, map[7 := account]).mail.None?
  {
  }

  /** The view counts and view records. */
  class ViewStore {
    /** The view count of each block, keyed by block id. */
    var views: map<nat, nat>
    var records: seq<ViewRecord>
    var nextId: nat

    ghost predicate Valid()
      reads this
    {
      PairsUnique(records) && forall k :: 0 <= k < |records| ==> records[k].id < nextId
    }

    constructor ()
      ensures Valid() && views == map[] && records == []
    {
      views := map[];
      records := [];
      nextId := 0;
    }

    function Count(brand: nat): nat
      reads this
    {
      if brand in views then views[brand] else 0
    }

    /** Storing a planned record keeps each pair recorded at most once. */
    method Insert(v: ViewRecord)
      requires Valid() && v.id == nextId && FindView(records, v.brandId, v.userId).None?
      modifies this
      ensures Valid()
      ensures records == old(records) + [v] && nextId == old(nextId) + 1 && views == old(views)
    {
      records := records + [v];
      nextId := nextId + 1;
    }

    /** One visit, intended behaviour. */
    method RecordVisit(blocks: seq<BrandBlock>, brand: nat, viewer: nat, account: Account, users: map<nat, Account>)
      returns (r: Outcome<Option<ViewRecord>>, mail: Option<Mail>)
      requires Valid()
      modifies this
      ensures Valid()
      ensures var p := VisitOf(blocks, old(records), old(nextId), brand, viewer, account, users);
        r == p.reply && mail == p.mail
        && views == (if p.counted then old(views)[brand := old(Count(brand)) + 1] else old(views))
        && records == old(records) + (if p.created.Some? then [p.created.value] else [])
    {
      var p := VisitOf(blocks, records, nextId, brand, viewer, account, users);
      if p.counted {
        views := views[brand := Count(brand) + 1];
      }
      if p.created.Some? {
        Insert(p.created.value);
      }
      r, mail := p.reply, p.mail;
    }

    /** One visit, as written. */
    method RecordVisitAsWritten(blocks: seq<BrandBlock>, brand: nat, viewer: nat, account: Account,
                          users: map<nat, Account>)
      returns (r: Outcome<Option<ViewRecord>>, mail: Option<Mail>)
      requires Valid()
      modifies this
      ensures Valid()
      ensures var p := VisitAsWritten(blocks, old(records), old(nextId), brand, viewer, account, users);
        r == p.reply && mail == p.mail && views == old(views)
        && records == old(records) + (if p.created.Some? then [p.created.value] else [])
    {
      var p := VisitAsWritten(blocks, records, nextId, brand, viewer, account, users);
      if p.created.Some? {
        Insert(p.created.value);
      }
      r, mail := p.reply, p.mail;
    }
  }

  /** A second visit by the same user to the same block records nothing
    * and mails nothing. */
  lemma RepeatVisitQuiet(blocks: seq<BrandBlock>, records: seq<ViewRecord>, nextId: nat, brand: nat, viewer: nat,
                         account: Account, users: map<nat, Account>)
    requires FindView(records, brand, viewer).Some?
    ensures VisitOf(blocks, records, nextId, brand, viewer, account, users).created.None?
    ensures VisitOf(blocks, records, nextId, brand, viewer, account, users).mail.None?
    ensures VisitAsWritten(blocks, records, nextId, brand, viewer, account, users).mail.None?
  {
  }
}
