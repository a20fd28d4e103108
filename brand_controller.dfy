/**
 * The brand-block purchase handlers: admitting a purchase request and
 * storing the unpaid block, confirming its payment and reflowing the grid,
 * and the public block listing's query.
 *
 * The payment gateway is an input: the order it creates is an order id (or
 * `None` when the call fails), the signature check is a boolean, and the
 * amount it reports for an order is a number of paise (or `None`).
 */
module BrandController {
  import opened Wrappers
  import opened Api
  import opened BrandBlocks
  import opened Reflow
  import opened Packing
  import Queries
  import Text

  /** Rupees charged per grid cell. */
  const UnitPrice: int := 500

  /** A `location.address` as the schema's string path casts it: missing or
    * null, text (a number or a boolean arrives as its text), or an object or
    * array, which the string cast refuses. */
  datatype AddressInput = NoAddress | AddressText(s: string) | NotText

  /** The `location` object of a request: the city and state are `None`
    * unless they are strings. */
  datatype LocationInput = LocationInput(city: Option<string>, state: Option<string>, address: AddressInput)

  /** A `longitude` or `latitude` as the `[Number]` path casts it: missing,
    * null or the empty string is stored as null, a number, numeric text or a
    * boolean as its value, and anything else fails the cast. */
  datatype Coordinate = Unset | Numeric(v: real) | NotNumeric

  /** The body of a purchase request after JavaScript's `typeof` tests: a
    * field is `None` when it is missing or of another type. */
  datatype PurchaseRequest = PurchaseRequest(
    brandName: Option<string>, description: Option<string>, details: Option<string>,
    category: Option<string>, location: Option<LocationInput>, logoUrl: Option<string>,
    w: Option<int>, h: Option<int>, longitude: Coordinate, latitude: Coordinate)

  /** What a successful purchase request answers: the payment order, its
    * amount in paise, and the id of the stored block. */
  datatype Purchase = Purchase(orderId: string, amount: int, blockId: nat)

  /** Every field has its type, and the city and state are non-empty. */
  predicate Typed(req: PurchaseRequest) {
    req.brandName.Some? && req.description.Some? && req.details.Some? && req.category.Some?
    && req.location.Some?
    && req.location.value.city.Some? && |req.location.value.city.value| > 0
    && req.location.value.state.Some? && |req.location.value.state.value| > 0
    && req.logoUrl.Some? && req.w.Some? && req.h.Some?
  }

  /** The guard chain of a purchase request; on success, the price in rupees. */
  function Admit(user: Option<nat>, req: PurchaseRequest): (r: Outcome<int>)
    ensures r.Ok? <==> user.Some? && Typed(req) && 1 <= req.w.value <= Columns && req.h.value >= 1
    ensures r.Ok? ==> r.value == req.w.value * req.h.value * UnitPrice && r.value >= UnitPrice
    ensures r.Err? ==> r.error.status == if user.None? then Unauthorized else BadRequest
  {
    if user.None? then Fail(Unauthorized, "Authentication required.")
    else if !Typed(req) then Fail(BadRequest, "Invalid or missing fields.")
    else if req.w.value < 1 || req.w.value > 20 then Fail(BadRequest, "w must be between 1 and 20.")
    else if req.h.value < 1 then Fail(BadRequest, "h must be \U{2265} 1.")
    else
      var w, h := req.w.value, req.h.value;
      assert w * h >= 1 by { assert w * h >= w; }
      Ok(w * h * UnitPrice)
  }

  /** The location's address and coordinates pass the schema's casts. */
  predicate Casts(req: PurchaseRequest) {
    req.longitude != NotNumeric && req.latitude != NotNumeric
    && (req.location.Some? ==> req.location.value.address != NotText)
  }

  /** The stored element of a coordinate that casts. */
  function CoordinateOf(c: Coordinate): Option<real>
    requires c != NotNumeric
  {
    if c.Numeric? then Some(c.v) else None
  }

  /** The document a purchase request builds, its location carrying the
    * coordinates `[longitude, latitude]`, before the schema trims it. */
  function NewBlock(owner: nat, req: PurchaseRequest, orderId: string, now: int): BrandBlock
    requires Typed(req) && Casts(req)
  {
    var l := req.location.value;
    var w, h := req.w.value, req.h.value;
    BrandBlock(
      id := 0, orderNum := None,
      brandName := req.brandName.value, description := req.description.value,
      details := req.details.value, category := req.category.value,
      location := Location(l.city.value, l.state.value,
                           if l.address.AddressText? then Some(l.address.s) else None,
                           [CoordinateOf(req.longitude), CoordinateOf(req.latitude)]),
      logoUrl := req.logoUrl.value,
      w := w, h := h, x := 0, y := 0, createdAt := now, xEnd := w, yEnd := h,
      owner := Some(owner), orderId := orderId, paymentId := "",
      paymentStatus := Initiated, totalAmount := (w * h * UnitPrice) as real,
      totalBlocks := w * h)
  }

  /** What saving a purchase gives: a location that does not cast fails
    * validation; otherwise the schema and the save hook decide. */
  function SavePurchase(docs: seq<BrandBlock>, owner: nat, req: PurchaseRequest, orderId: string, now: int, id: nat): Result<BrandBlock, string>
    requires Typed(req)
  {
    if Casts(req) then Save(docs, Cast(NewBlock(owner, req, orderId, now)).(id := id))
    else Err("BrandBlock validation failed")
  }

  /** `confirmAndShift`: check the request, open a payment order for the
    * price in paise, and store the block unpaid at the origin. */
  method ConfirmAndShift(store: BrandBlockStore, user: Option<nat>, req: PurchaseRequest,
                         order: Option<string>, now: int) returns (r: Outcome<Purchase>)
    requires store.Valid()
    modifies store
    ensures store.Valid()
    ensures Admit(user, req).Err? ==> r == Err(Admit(user, req).error) && store.docs == old(store.docs)
    ensures Admit(user, req).Ok? && order.None? ==>
      r == Fail(ServerError, "Server error initiating purchase.") && store.docs == old(store.docs)
    ensures Admit(user, req).Ok? && order.Some? ==>
      var saved := SavePurchase(old(store.docs), user.value, req, order.value, now, old(store.nextId));
      (saved.Ok? ==>
         r == Ok(Purchase(order.value, Admit(user, req).value * 100, saved.value.id))
         && store.docs == old(store.docs) + [saved.value])
      && (saved.Err? ==> r == Fail(ServerError, "Server error creating block.") && store.docs == old(store.docs))
  {
    var admitted := Admit(user, req);
    if admitted.Err? {
      return Err(admitted.error);
    }
    var totalAmount := admitted.value;
    if order.None? {
      return Fail(ServerError, "Server error initiating purchase.");
    }
    if !Casts(req) {
      return Fail(ServerError, "Server error creating block.");
    }
    var saved := store.Create(NewBlock(user.value, req, order.value, now));
    if saved.Err? {
      return Fail(ServerError, "Server error creating block.");
    }
    r := Ok(Purchase(order.value, totalAmount * 100, saved.value.id));
  }

  /** The invariant the handlers keep on the collection: every document
    * passed the schema and carries an ordinal. */
  predicate Sound(docs: seq<BrandBlock>) {
    forall k :: 0 <= k < |docs| ==> SchemaValid(docs[k]) && docs[k].orderNum.Some?
  }

  /** In a sound collection a save fails only on the schema, and a stored
    * document keeps the collection sound. */
  lemma SoundSave(docs: seq<BrandBlock>, b: BrandBlock)
    requires Sound(docs)
    ensures Save(docs, b).Ok? <==> SchemaValid(b)
    ensures Save(docs, b).Ok? ==> Sound(docs + [Save(docs, b).value])
  {
    if |docs| > 0 {
      assert docs[0].orderNum.Some?;
    }
  }

  /** A stored purchase is an unpaid block at the origin, as wide and high
    * as requested, priced at 500 per cell, located at the requested
    * coordinates, numbered, and valid; it is refused exactly when the
    * address or a coordinate does not cast, a text field is blank once
    * trimmed, or the category is not one of the listed ones. */
  lemma PurchasedBlock(docs: seq<BrandBlock>, owner: nat, req: PurchaseRequest, orderId: string, now: int, id: nat)
    requires Sound(docs) && Admit(Some(owner), req).Ok?
    ensures var saved := SavePurchase(docs, owner, req, orderId, now, id);
      (saved.Ok? <==>
         Casts(req)
         && Present(Text.Trim(req.brandName.value)) && Present(Text.Trim(req.description.value))
         && Present(Text.Trim(req.details.value)) && Text.Trim(req.category.value) in Categories
         && Present(Text.Trim(req.location.value.city.value)) && Present(Text.Trim(req.location.value.state.value))
         && Present(req.logoUrl.value))
      && (saved.Ok? ==>
            var s := saved.value;
            Casts(req)
            && s.location.coordinates == [CoordinateOf(req.longitude), CoordinateOf(req.latitude)]
            && s.id == id && s.x == 0 && s.y == 0 && s.w == req.w.value && s.h == req.h.value
            && s.xEnd == s.w && s.yEnd == s.h && s.paymentStatus == Initiated
            && s.totalAmount == Admit(Some(owner), req).value as real && s.totalBlocks == s.w * s.h
            && s.owner == Some(owner) && s.orderId == orderId && s.orderNum.Some?
            && Sound(docs + [s]))
  {
    if Casts(req) {
      var b := Cast(NewBlock(owner, req, orderId, now)).(id := id);
      SoundSave(docs, b);
    }
  }

  /** A stored purchase is found by the geographic listing exactly when both
    * its longitude and its latitude were given as numbers. */
  lemma PurchaseGeolocated(docs: seq<BrandBlock>, owner: nat, req: PurchaseRequest, orderId: string, now: int, id: nat)
    requires Sound(docs) && Admit(Some(owner), req).Ok?
    requires SavePurchase(docs, owner, req, orderId, now, id).Ok?
    ensures Geolocated(SavePurchase(docs, owner, req, orderId, now, id).value)
            <==> req.longitude.Numeric? && req.latitude.Numeric?
  {
    PurchasedBlock(docs, owner, req, orderId, now, id);
  }

  /** The payment confirmation a client sends back. */
  datatype PaymentProof = PaymentProof(orderId: string, paymentId: string, signatureValid: bool)

  /** How `verifyPurchase` answers a confirmation before it writes. */
  datatype Verdict = Reject(error: ApiError) | Discard(error: ApiError) | Accept

  function Decide(found: Option<BrandBlock>, proof: PaymentProof): (v: Verdict)
    ensures v.Accept? <==>
      found.Some? && found.value.orderId == proof.orderId && found.value.paymentStatus != Success
      && proof.signatureValid
    ensures v.Discard? <==>
      found.Some? && found.value.orderId == proof.orderId && found.value.paymentStatus != Success
      && !proof.signatureValid
    ensures v.Reject? ==> v.error.status == if found.None? then NotFound else BadRequest
    ensures v.Discard? ==> v.error.status == BadRequest
  {
    if found.None? then Reject(ApiError(NotFound, "Block not found."))
    else if found.value.orderId != proof.orderId then Reject(ApiError(BadRequest, "Order ID mismatch."))
    else if found.value.paymentStatus == Success then
      Reject(ApiError(BadRequest, "Payment already verified for this block."))
    else if !proof.signatureValid then Discard(ApiError(BadRequest, "Invalid payment signature."))
    else Accept
  }

  /** The block once paid: the payment id, the success status, and the
    * amount the gateway reports, converted from paise to rupees. */
  function Confirmed(b: BrandBlock, paymentId: string, paise: int): (c: BrandBlock)
    ensures c == b.(paymentId := c.paymentId, paymentStatus := c.paymentStatus, totalAmount := c.totalAmount)
    ensures c.paymentStatus == Success && c.paymentId == paymentId && c.totalAmount * 100.0 == paise as real
  {
    b.(paymentId := paymentId, paymentStatus := Success, totalAmount := paise as real / 100.0)
  }

  /** `verifyPurchase`. A bad signature deletes the block; a good one
    * records the payment and reflows the grid, then answers the block as
    * stored after the reflow.  Any failure after the checks is a 500, and
    * a reflow failure leaves the payment recorded. */
  method VerifyPurchase(store: BrandBlockStore, blockId: nat, proof: PaymentProof, fetched: Option<int>)
    returns (r: Outcome<Option<BrandBlock>>)
    requires store.Valid()
    modifies store
    ensures store.Valid()
    ensures var found := Lookup(old(store.docs), blockId);
      var v := Decide(found, proof);
      (v.Reject? ==> r == Err(v.error) && store.docs == old(store.docs))
      && (v.Discard? ==> r == Err(v.error) && store.docs == RemoveById(old(store.docs), blockId))
      && (v.Accept? && fetched.None? ==>
            r == Fail(ServerError, "Server error verifying payment.") && store.docs == old(store.docs))
      && (v.Accept? && fetched.Some? ==>
            var saved := Save(old(store.docs), Confirmed(found.value, proof.paymentId, fetched.value));
            (saved.Err? ==>
               r == Fail(ServerError, "Server error verifying payment.") && store.docs == old(store.docs))
            && (saved.Ok? ==>
                  var mid := ReplaceById(old(store.docs), saved.value);
                  (Reflowed(mid).Err? ==>
                     r == Fail(ServerError, "Server error verifying payment.") && store.docs == mid)
                  && (Reflowed(mid).Ok? ==>
                        store.docs == Reflowed(mid).value && r == Ok(Lookup(store.docs, blockId)))))
  {
    var found := store.FindById(blockId);
    var v := Decide(found, proof);
    if v.Reject? {
      return Err(v.error);
    }
    if v.Discard? {
      store.DeleteOne(blockId);
      return Err(v.error);
    }
    if fetched.None? {
      return Fail(ServerError, "Server error verifying payment.");
    }
    var saved := store.Update(Confirmed(found.value, proof.paymentId, fetched.value));
    if saved.Err? {
      return Fail(ServerError, "Server error verifying payment.");
    }
    var reflowed := ReflowAllBlocks(store);
    if reflowed.Err? {
      return Fail(ServerError, "Server error verifying payment.");
    }
    r := Ok(store.FindById(blockId));
  }

  /** With distinct ids, looking up a document's id finds that document. */
  lemma {:induction false} LookupAt(docs: seq<BrandBlock>, k: int)
    requires DistinctIds(docs) && 0 <= k < |docs|
    ensures Lookup(docs, docs[k].id) == Some(docs[k])
    decreases |docs|
  {
    if k > 0 {
      assert docs[0].id != docs[k].id;
      assert docs[1..][k - 1] == docs[k];
      LookupAt(docs[1..], k - 1);
    }
  }

  /** A reflow of a sound collection never overflows, and it leaves the
    * collection sound: the positions it writes are within the schema's
    * bounds, and every paid block gets an ordinal. */
  lemma ReflowKeepsSound(docs: seq<BrandBlock>)
    requires DistinctIds(docs) && Sound(docs)
    ensures Reflowed(docs).Ok? && Sound(Reflowed(docs).value)
  {
    ReflowOverflow(docs);
    var nd := Reflowed(docs).value;
    ReflowKeepsOthers(docs);
    ReflowGeometry(docs);
    ReflowOrdinals(docs);
    forall k | 0 <= k < |nd|
      ensures SchemaValid(nd[k]) && nd[k].orderNum.Some?
    {
      assert SchemaValid(docs[k]);
    }
  }

  /** Replacing a document by a valid, numbered one with the same id keeps
    * the collection sound and its ids distinct. */
  lemma ReplaceKeepsSound(docs: seq<BrandBlock>, k: int, c: BrandBlock)
    requires DistinctIds(docs) && Sound(docs) && 0 <= k < |docs|
    requires c.id == docs[k].id && SchemaValid(c) && c.orderNum.Some?
    ensures var mid := ReplaceById(docs, c);
      DistinctIds(mid) && Sound(mid) && mid[k] == c
  {
    var mid := ReplaceById(docs, c);
    assert forall j :: 0 <= j < |mid| ==> mid[j].id == docs[j].id;
    forall j | 0 <= j < |mid| ensures SchemaValid(mid[j]) && mid[j].orderNum.Some? {
      assert SchemaValid(docs[j]) && docs[j].orderNum.Some?;
    }
  }

  /** After a reflow a paid block is found by its id, keeps its payment
    * fields, and holds an ordinal among the paid blocks. */
  lemma ReflowedLookup(docs: seq<BrandBlock>, k: int)
    requires DistinctIds(docs) && Reflowed(docs).Ok? && 0 <= k < |docs|
    requires docs[k].paymentStatus == Success
    ensures var b := Lookup(Reflowed(docs).value, docs[k].id);
      b.Some? && b.value.paymentStatus == Success && b.value.paymentId == docs[k].paymentId
      && b.value.orderNum.Some? && 1 <= b.value.orderNum.value <= |Paid(docs)|
  {
    var nd := Reflowed(docs).value;
    ReflowKeepsOthers(docs);
    ReflowOrdinals(docs);
    assert nd[k].id == docs[k].id;
    assert DistinctIds(nd) by {
      forall i, j | 0 <= i < j < |nd| ensures nd[i].id != nd[j].id {
        assert nd[i].id == docs[i].id && nd[j].id == docs[j].id;
      }
    }
    LookupAt(nd, k);
  }

  /** In a sound collection an accepted confirmation always succeeds: the
    * save passes, the reflow cannot overflow, and the answered block is
    * the paid one with its payment id and an ordinal among the paid blocks. */
  lemma AcceptedPurchaseLands(docs: seq<BrandBlock>, blockId: nat, proof: PaymentProof, paise: int)
    requires DistinctIds(docs) && Sound(docs)
    requires Decide(Lookup(docs, blockId), proof).Accept?
    ensures var saved := Save(docs, Confirmed(Lookup(docs, blockId).value, proof.paymentId, paise));
      saved.Ok?
      && var mid := ReplaceById(docs, saved.value);
      Reflowed(mid).Ok?
      && var nd := Reflowed(mid).value;
      Sound(nd)
      && var b := Lookup(nd, blockId);
      b.Some? && b.value.paymentStatus == Success && b.value.paymentId == proof.paymentId
      && 1 <= b.value.orderNum.value <= |Paid(mid)|
  {
    var found := Lookup(docs, blockId).value;
    var k :| 0 <= k < |docs| && docs[k] == found;
    var c := Confirmed(found, proof.paymentId, paise);
    assert SchemaValid(c) by { assert SchemaValid(docs[k]); }
    SoundSave(docs, c);
    assert Save(docs, c) == Ok(c);
    ReplaceKeepsSound(docs, k, c);
    var mid := ReplaceById(docs, c);
    ReflowKeepsSound(mid);
    ReflowedLookup(mid, k);
  }

  /** The fields of a block the listing filter reads; a brand block has no
    * `location.country`. */
  function RowOf(b: BrandBlock): Queries.Row {
    Queries.Row(b.location.city, b.location.state, None, b.category,
                b.brandName, b.description, b.details,
                match b.paymentStatus
                case Initiated => "initiated"
                case Success => "success"
                case Failed => "failed")
  }

  /** The query `getAllBlocks` runs: its filter, sort keys, and skip and
    * limit (`None` for NaN). */
  datatype BlocksQuery = BlocksQuery(
    filter: Queries.Filter, sort: seq<(string, Queries.Direction)>, skip: Option<int>, limit: Option<int>)

  function GetAllBlocks(q: Queries.ListingParams): BlocksQuery {
    var window := Queries.BlocksWindow(q);
    BlocksQuery(Queries.BlocksFilter(q), Queries.SortOption(q.sort, q.order), window.0, window.1)
  }

  /** The public listing shows blocks in every payment state; a country
    * condition matches no brand block, since none has a country; and
    * without conditions every block is listed. */
  lemma GetAllBlocksSelects(q: Queries.ListingParams, b: BrandBlock, re: Queries.Matcher)
    ensures GetAllBlocks(q).filter.paymentStatus.None?
    ensures Queries.Given(q.country).Some? ==> !Queries.Selects(GetAllBlocks(q).filter, RowOf(b), re)
    ensures (Queries.Given(q.city).None? && Queries.Given(q.state).None? && Queries.Given(q.country).None?
             && Queries.Given(q.category).None? && Queries.Given(q.search).None?) ==>
      Queries.Selects(GetAllBlocks(q).filter, RowOf(b), re)
  {
  }
}
