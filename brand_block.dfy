/**
 * The brand-block document: a rectangle of the 20-column grid bought by a
 * brand, its schema bounds, the save hook that numbers new blocks, and the
 * collection that holds the documents.
 */
module BrandBlocks {
  import opened Wrappers
  import Text

  datatype PaymentStatus = Initiated | Success | Failed

  /** The `location` sub-document; `coordinates` is the `[Number]` array the
    * purchase stores as `[longitude, latitude]`, `None` standing for a null
    * element. */
  datatype Location = Location(city: string, state: string, address: Option<string>, coordinates: seq<Option<real>>)

  datatype BrandBlock = BrandBlock(
    id: nat,
    orderNum: Option<int>,
    brandName: string,
    description: string,
    details: string,
    category: string,
    location: Location,
    logoUrl: string,
    w: int,
    h: int,
    x: int,
    y: int,
    createdAt: int,
    xEnd: int,
    yEnd: int,
    owner: Option<nat>,
    orderId: string,
    paymentId: string,
    paymentStatus: PaymentStatus,
    totalAmount: real,
    totalBlocks: int)

  /** What reading `owner.toString()` throws for a block saved without an
    * owner: the path has no default, so it reads as `undefined`. */
  const OwnerUnreadable: string := "Cannot read properties of undefined (reading 'toString')"

  const Categories: seq<string> := [
    "Technology", "Food", "Fashion", "Healthcare", "Education",
    "Entertainment", "Finance", "Travel", "Other"]

  /** The geographic listing's base match: `location.coordinates.0` and
    * `location.coordinates.1` both exist and are not null. */
  predicate Geolocated(b: BrandBlock) {
    |b.location.coordinates| >= 2 && b.location.coordinates[0].Some? && b.location.coordinates[1].Some?
  }

  /** A `required` string path rejects the empty string. */
  predicate Present(s: string) { |s| > 0 }

  /** The validators of the schema: required strings, the category
    * enumeration and the geometry bounds `1 <= w <= 20`, `h >= 1`,
    * `0 <= x <= 19` and `y >= 0`. */
  predicate SchemaValid(b: BrandBlock) {
    Present(b.brandName) && Present(b.description) && Present(b.details)
    && b.category in Categories
    && Present(b.location.city) && Present(b.location.state)
    && Present(b.logoUrl)
    && 1 <= b.w <= 20 && b.h >= 1
    && 0 <= b.x <= 19 && b.y >= 0
  }

  function TrimOpt(s: Option<string>): Option<string> {
    match s
    case None => None
    case Some(t) => Some(Text.Trim(t))
  }

  /** The `trim: true` setters, applied when a document is built. */
  function Cast(b: BrandBlock): (c: BrandBlock)
    ensures c.id == b.id && c.orderNum == b.orderNum && c.w == b.w && c.h == b.h
    ensures c.x == b.x && c.y == b.y && c.xEnd == b.xEnd && c.yEnd == b.yEnd
    ensures c.paymentStatus == b.paymentStatus && c.logoUrl == b.logoUrl
    ensures c.location.coordinates == b.location.coordinates
  {
    b.(brandName := Text.Trim(b.brandName),
       description := Text.Trim(b.description),
       details := Text.Trim(b.details),
       category := Text.Trim(b.category),
       location := b.location.(city := Text.Trim(b.location.city), state := Text.Trim(b.location.state),
                               address := TrimOpt(b.location.address)))
  }

  /** Casting twice is casting once. */
  lemma CastIdempotent(b: BrandBlock)
    ensures Cast(Cast(b)) == Cast(b)
  {
    Text.TrimIdempotent(b.brandName);
    Text.TrimIdempotent(b.description);
    Text.TrimIdempotent(b.details);
    Text.TrimIdempotent(b.category);
    Text.TrimIdempotent(b.location.city);
    Text.TrimIdempotent(b.location.state);
    if b.location.address.Some? {
      Text.TrimIdempotent(b.location.address.value);
    }
  }

  /** The largest `orderNum` set on any document, as a descending sort on
    * `orderNum` reports it; `None` when no document has one. */
  function TopOrderNum(docs: seq<BrandBlock>): (r: Option<int>)
    ensures r.None? <==> forall k :: 0 <= k < |docs| ==> docs[k].orderNum.None?
    ensures r.Some? ==> exists k :: 0 <= k < |docs| && docs[k].orderNum == Some(r.value)
    ensures r.Some? ==> forall k :: 0 <= k < |docs| && docs[k].orderNum.Some? ==> docs[k].orderNum.value <= r.value
    decreases |docs|
  {
    if |docs| == 0 then None
    else
      var prev := TopOrderNum(docs[..|docs| - 1]);
      var last := docs[|docs| - 1].orderNum;
      assert forall k :: 0 <= k < |docs| - 1 ==> docs[..|docs| - 1][k] == docs[k];
      match last
      case None => prev
      case Some(n) => if prev.Some? && prev.value >= n then prev else Some(n)
  }

  /** The pre-save hook.  A block that already has an `orderNum` keeps it.
    * Otherwise it gets 1 on an empty collection, or one more than the
    * largest `orderNum` stored; when documents exist but none has an
    * `orderNum`, the sum is `NaN` and the save fails on the cast. */
  function PreSave(docs: seq<BrandBlock>, b: BrandBlock): (r: Result<BrandBlock, string>)
    ensures b.orderNum.Some? ==> r == Ok(b)
    ensures b.orderNum.None? && |docs| == 0 ==> r == Ok(b.(orderNum := Some(1)))
    ensures r.Ok? ==> r.value.orderNum.Some? && r.value == b.(orderNum := r.value.orderNum)
    ensures r.Ok? && b.orderNum.None? ==>
      forall k :: 0 <= k < |docs| && docs[k].orderNum.Some? ==> docs[k].orderNum.value < r.value.orderNum.value
    ensures r.Ok? && b.orderNum.None? && |docs| > 0 ==>
      exists k :: 0 <= k < |docs| && docs[k].orderNum == Some(r.value.orderNum.value - 1)
    ensures r.Err? <==> b.orderNum.None? && |docs| > 0 && forall k :: 0 <= k < |docs| ==> docs[k].orderNum.None?
  {
    if b.orderNum.Some? then Ok(b)
    else if |docs| == 0 then Ok(b.(orderNum := Some(1)))
    else
      match TopOrderNum(docs)
      case None => Err("Cast to Number failed for value \"NaN\" at path \"orderNum\"")
      case Some(m) => Ok(b.(orderNum := Some(m + 1)))
  }

  /** `document.save()`: validation, then the pre-save hook. */
  function Save(docs: seq<BrandBlock>, b: BrandBlock): (r: Result<BrandBlock, string>)
    ensures r.Ok? ==> SchemaValid(b) && r == PreSave(docs, b)
    ensures !SchemaValid(b) ==> r.Err?
  {
    if !SchemaValid(b) then Err("BrandBlock validation failed") else PreSave(docs, b)
  }

  predicate DistinctIds(docs: seq<BrandBlock>) {
    forall i, j :: 0 <= i < j < |docs| ==> docs[i].id != docs[j].id
  }

  /** The document with id `id`, if any. */
  function Lookup(docs: seq<BrandBlock>, id: nat): (r: Option<BrandBlock>)
    ensures r.None? <==> forall k :: 0 <= k < |docs| ==> docs[k].id != id
    ensures r.Some? ==> r.value.id == id && r.value in docs
    decreases |docs|
  {
    if |docs| == 0 then None
    else if docs[0].id == id then Some(docs[0])
    else Lookup(docs[1..], id)
  }

  /** The documents with the one whose id is `b.id` replaced by `b`. */
  function ReplaceById(docs: seq<BrandBlock>, b: BrandBlock): (r: seq<BrandBlock>)
    ensures |r| == |docs|
    ensures forall k :: 0 <= k < |docs| ==> r[k] == if docs[k].id == b.id then b else docs[k]
    decreases |docs|
  {
    if |docs| == 0 then []
    else [if docs[0].id == b.id then b else docs[0]] + ReplaceById(docs[1..], b.(id := b.id))
  }

  /** The documents other than the one whose id is `id`, in order. */
  function RemoveById(docs: seq<BrandBlock>, id: nat): (r: seq<BrandBlock>)
    ensures |r| <= |docs|
    ensures forall b :: b in r <==> b in docs && b.id != id
    decreases |docs|
  {
    if |docs| == 0 then []
    else if docs[0].id == id then RemoveById(docs[1..], id)
    else [docs[0]] + RemoveById(docs[1..], id)
  }

  lemma {:induction false} RemoveKeepsDistinct(docs: seq<BrandBlock>, id: nat)
    requires DistinctIds(docs)
    ensures DistinctIds(RemoveById(docs, id))
    decreases |docs|
  {
    if |docs| > 0 {
      var rest := RemoveById(docs[1..], id);
      RemoveKeepsDistinct(docs[1..], id);
      if docs[0].id != id {
        forall b | b in rest ensures b.id != docs[0].id {
          var k :| 0 <= k < |docs[1..]| && docs[1..][k] == b;
          assert docs[k + 1] == b;
        }
        var r := [docs[0]] + rest;
        forall i, j | 0 <= i < j < |r| ensures r[i].id != r[j].id {
          if i == 0 {
            assert r[j] in rest;
          } else {
            assert r[i] == rest[i - 1] && r[j] == rest[j - 1];
          }
        }
      }
    }
  }

  /** A document whose id is the next counter value keeps the ids distinct. */
  lemma AppendFresh(docs: seq<BrandBlock>, n: nat, b: BrandBlock)
    requires DistinctIds(docs) && forall k :: 0 <= k < |docs| ==> docs[k].id < n
    requires b.id == n
    ensures DistinctIds(docs + [b]) && forall k :: 0 <= k < |docs| + 1 ==> (docs + [b])[k].id < n + 1
  {
  }

  /** Replacing a document by one with the same id keeps the ids. */
  lemma ReplaceKeepsIds(docs: seq<BrandBlock>, n: nat, b: BrandBlock)
    requires DistinctIds(docs) && forall k :: 0 <= k < |docs| ==> docs[k].id < n
    ensures var r := ReplaceById(docs, b);
      (forall k :: 0 <= k < |r| ==> r[k].id == docs[k].id)
      && DistinctIds(r) && forall k :: 0 <= k < |r| ==> r[k].id < n
  {
    var r := ReplaceById(docs, b);
    assert forall k :: 0 <= k < |r| ==> r[k].id == docs[k].id;
  }

  /** The brand-block collection; ids are issued from a counter and are
    * never reused. */
  class BrandBlockStore {
    var docs: seq<BrandBlock>
    var nextId: nat

    ghost predicate Valid()
      reads this
    {
      DistinctIds(docs) && forall k :: 0 <= k < |docs| ==> docs[k].id < nextId
    }

    constructor ()
      ensures Valid() && docs == []
    {
      docs := [];
      nextId := 0;
    }

    /** `findById`. */
    function FindById(id: nat): (r: Option<BrandBlock>)
      reads this
      ensures r.Some? <==> exists k :: 0 <= k < |docs| && docs[k].id == id
      ensures r.Some? ==> r.value.id == id && r.value in docs
    {
      Lookup(docs, id)
    }

    /** `new BrandBlock(fields).save()`: the fields are cast, the document
      * receives a fresh id, and it is stored only if the save succeeds. */
    method Create(fields: BrandBlock) returns (r: Result<BrandBlock, string>)
      requires Valid()
      modifies this
      ensures Valid()
      ensures r == Save(old(docs), Cast(fields).(id := old(nextId)))
      ensures r.Ok? ==> docs == old(docs) + [r.value] && r.value.id == old(nextId)
      ensures r.Err? ==> docs == old(docs)
    {
      var doc := Cast(fields).(id := nextId);
      r := Save(docs, doc);
      if r.Ok? {
        AppendFresh(docs, nextId, r.value);
        docs := docs + [r.value];
        nextId := nextId + 1;
      }
    }

    /** `block.save()` on a stored document: the stored copy is replaced when
      * the save succeeds. */
    method Update(b: BrandBlock) returns (r: Result<BrandBlock, string>)
      requires Valid() && FindById(b.id).Some?
      modifies this
      ensures Valid() && nextId == old(nextId)
      ensures r == Save(old(docs), b)
      ensures r.Ok? ==> docs == ReplaceById(old(docs), r.value)
      ensures r.Err? ==> docs == old(docs)
    {
      r := Save(docs, b);
      if r.Ok? {
        ReplaceKeepsIds(docs, nextId, r.value);
        docs := ReplaceById(docs, r.value);
      }
    }

    /** `deleteOne({ _id: id })`. */
    method DeleteOne(id: nat)
      requires Valid()
      modifies this
      ensures Valid() && nextId == old(nextId)
      ensures docs == RemoveById(old(docs), id)
    {
      RemoveKeepsDistinct(docs, id);
      docs := RemoveById(docs, id);
    }

    /** Replaces the whole collection by documents with the same ids in the
      * same order, as an update-by-id batch leaves it. */
    method Overwrite(newDocs: seq<BrandBlock>)
      requires Valid() && |newDocs| == |docs|
      requires forall k :: 0 <= k < |docs| ==> newDocs[k].id == docs[k].id
      modifies this
      ensures Valid() && docs == newDocs && nextId == old(nextId)
    {
      docs := newDocs;
    }
  }
}
