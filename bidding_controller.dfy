/**
 * The auction handlers: opening a bidding on a grid space, ordering a bid,
 * recording a paid bid, and closing the auction in favour of the highest
 * bid.  The payment gateway's order id and the signature check are inputs;
 * refunds of losing bids are not part of this model.
 */
module BiddingController {
  import opened Wrappers
  import opened Api
  import opened GridSpaces
  import opened Biddings
  import opened GridStore

  /** A date field of a request: missing (or falsy), not a date, or a time
    * in milliseconds. */
  datatype DateField = NoDate | BadDate | At(ms: int)

  datatype BiddingRequest = BiddingRequest(
    gridSpaceId: Option<nat>, minimumBid: Option<real>, startDate: DateField, endDate: DateField)

  /** The checks `createBidding` makes before it reads the database; on
    * success, the space, the minimum bid and the end time. */
  function CheckBiddingRequest(req: BiddingRequest, now: int): (r: Outcome<(nat, real, int)>)
    ensures r.Ok? <==>
      req.gridSpaceId.Some? && req.minimumBid.Some?
      && req.startDate.At? && req.startDate.ms > now
      && req.endDate.At? && req.endDate.ms > now
    ensures r.Ok? ==> r.value == (req.gridSpaceId.value, req.minimumBid.value, req.endDate.ms)
    ensures r.Err? ==> r.error.status == BadRequest
  {
    if req.gridSpaceId.None? || req.minimumBid.None? || req.startDate.NoDate? || req.endDate.NoDate? then
      Fail(BadRequest, "Please provide all required fields")
    else if req.startDate.BadDate? then Fail(BadRequest, "Invalid startDate")
    else if req.startDate.ms <= now then Fail(BadRequest, "Start date must be in the future")
    else if req.endDate.BadDate? then Fail(BadRequest, "Invalid endDate")
    else if req.endDate.ms <= now then Fail(BadRequest, "End date must be in the future")
    else Ok((req.gridSpaceId.value, req.minimumBid.value, req.endDate.ms))
  }

  /** Nothing compares the two dates: an auction may end before the start
    * date it was asked for. */
  lemma EndBeforeStartAccepted(now: int, space: nat)
    ensures CheckBiddingRequest(BiddingRequest(Some(space), Some(0.0), At(now + 2), At(now + 1)), now).Ok?
  {
  }

  /** Some bidding on the space is still open. */
  predicate HasActiveBidding(biddings: map<nat, Bidding>, space: nat) {
    exists id :: id in biddings && biddings[id].gridSpace == space && biddings[id].status == Active
  }

  /** `createBidding`: the auction starts at `now`, whatever start date was
    * asked for, and the space is locked into bidding. */
  method CreateBidding(db: Db, user: nat, req: BiddingRequest, now: int) returns (r: Outcome<nat>)
    requires db.Valid()
    modifies db
    ensures db.Valid()
    ensures CheckBiddingRequest(req, now).Err? ==>
      r == Err(CheckBiddingRequest(req, now).error) && unchanged(db)
    ensures CheckBiddingRequest(req, now).Ok? ==>
      var (sid, minimum, end) := CheckBiddingRequest(req, now).value;
      if sid !in old(db.spaces) then r == Fail(NotFound, "Grid space not found") && unchanged(db)
      else if old(db.spaces)[sid].status in {Purchased, InBidding} then
        r == Fail(BadRequest, "This grid space is not available for bidding") && unchanged(db)
      else if HasActiveBidding(old(db.biddings), sid) then
        r == Fail(BadRequest, "There is already an active bidding for this grid space") && unchanged(db)
      else
        r.Ok? && r.value !in old(db.biddings)
        && db.biddings == old(db.biddings)[r.value := NewBidding(sid, now, end, minimum, user, now)]
        && db.spaces == old(db.spaces)[sid := old(db.spaces)[sid].(status := InBidding, activeBidding := Some(r.value), updatedAt := now)]
        && db.transactions == old(db.transactions) && db.layouts == old(db.layouts)
  {
    var checked := CheckBiddingRequest(req, now);
    if checked.Err? {
      return checked.PropagateFailure();
    }
    var (sid, minimum, end) := checked.value;
    if sid !in db.spaces {
      return Fail(NotFound, "Grid space not found");
    }
    var space := db.spaces[sid];
    if space.status == Purchased || space.status == InBidding {
      return Fail(BadRequest, "This grid space is not available for bidding");
    }
    if HasActiveBidding(db.biddings, sid) {
      return Fail(BadRequest, "There is already an active bidding for this grid space");
    }
    var id := db.CreateBidding(NewBidding(sid, now, end, minimum, user, now), now);
    db.SaveSpace(sid, space.(status := InBidding, activeBidding := Some(id)), now);
    r := Ok(id);
  }

  /** What the bidder is asked to pay: the gateway amount in paise, and the
    * transaction recorded for it. */
  datatype BidOrder = BidOrder(paise: real, transaction: Transaction)

  /** The checks `placeBid` makes; on success, the bidding's space.  `show`
    * renders a number as JavaScript's template literal does; it names the
    * highest bid in the too-low refusal. */
  function CheckBid(biddings: map<nat, Bidding>, spaces: map<nat, GridSpace>,
                    biddingId: Option<nat>, bidAmount: Option<real>, now: int,
                    show: real -> string): (r: Outcome<nat>)
    ensures r.Ok? <==>
      biddingId.Some? && bidAmount.Some? && bidAmount.value != 0.0
      && biddingId.value in biddings && biddings[biddingId.value].gridSpace in spaces
      && IsActive(biddings[biddingId.value], now)
      && bidAmount.value > HighestBid(biddings[biddingId.value])
    ensures r.Ok? ==> r.value == biddings[biddingId.value].gridSpace
    ensures (r.Err? && biddingId.Some? && bidAmount.Some? && bidAmount.value != 0.0
      && biddingId.value in biddings && biddings[biddingId.value].gridSpace in spaces) ==>
      r.error.status == BadRequest
    ensures (biddingId.Some? && bidAmount.Some? && bidAmount.value != 0.0
      && biddingId.value in biddings && biddings[biddingId.value].gridSpace in spaces
      && IsActive(biddings[biddingId.value], now)
      && bidAmount.value <= HighestBid(biddings[biddingId.value])) ==>
      r == Fail(BadRequest, "Bid amount must be greater than current highest bid: "
                            + show(HighestBid(biddings[biddingId.value])))
  {
    if biddingId.None? || bidAmount.None? || bidAmount.value == 0.0 then
      Fail(BadRequest, "Please provide all required fields")
    else if biddingId.value !in biddings then Fail(NotFound, "Bidding not found")
    else
      var bidding := biddings[biddingId.value];
      if bidding.gridSpace !in spaces then Fail(NotFound, "Grid space not found")
      else if !IsActive(bidding, now) then Fail(BadRequest, "Bidding period is not active")
      else if bidAmount.value <= HighestBid(bidding) then
        Fail(BadRequest, "Bid amount must be greater than current highest bid: " + show(HighestBid(bidding)))
      else Ok(bidding.gridSpace)
  }

  /** `placeBid`: no bid is recorded yet, only an initiated transaction for
    * the gateway order `orderId`. */
  method PlaceBid(db: Db, user: nat, biddingId: Option<nat>, bidAmount: Option<real>,
                  orderId: string, receipt: string, now: int, show: real -> string)
    returns (r: Outcome<BidOrder>)
    requires db.Valid()
    modifies db
    ensures db.Valid()
    ensures var c := CheckBid(old(db.biddings), old(db.spaces), biddingId, bidAmount, now, show);
      (c.Err? ==> r == Err(c.error) && unchanged(db))
      && (c.Ok? ==>
        var t := Transaction(old(db.nextId), user, [c.value], bidAmount.value, "INR", "", orderId,
                             TxInitiated, receipt, now);
        r == Ok(BidOrder(bidAmount.value * 100.0, t))
        && db.transactions == old(db.transactions) + [t]
        && db.biddings == old(db.biddings) && db.spaces == old(db.spaces) && db.layouts == old(db.layouts))
  {
    var c := CheckBid(db.biddings, db.spaces, biddingId, bidAmount, now, show);
    if c.Err? {
      return c.PropagateFailure();
    }
    var t := db.CreateTransaction(Transaction(0, user, [c.value], bidAmount.value, "INR", "", orderId,
                                              TxInitiated, receipt, now));
    r := Ok(BidOrder(bidAmount.value * 100.0, t));
  }

  /** A bid placed through `placeBid` outbids everything before it. */
  lemma PlacedBidLeads(b: Bidding, bid: Bid, now: int, spaces: map<nat, GridSpace>, show: real -> string)
    requires b.gridSpace in spaces
    requires CheckBid(map[0 := b], spaces, Some(0), Some(bid.amount), now, show).Ok?
    ensures HighestBid(b.(bids := b.bids + [bid])) == bid.amount
    ensures forall i :: 0 <= i < |b.bids| ==> b.bids[i].amount < bid.amount
  {
    RaiseHighest(b, bid);
  }

  /** `verifyBidPayment`.  The first transaction of the order is marked
    * failed on a bad signature; otherwise it is marked paid and the bidding
    * gains one pending bid of the transaction's amount. */
  method VerifyBidPayment(db: Db, user: nat, orderId: string, paymentId: string, biddingId: nat,
                          signatureValid: bool, now: int) returns (r: Outcome<Bidding>)
    requires db.Valid()
    modifies db
    ensures db.Valid()
    ensures db.spaces == old(db.spaces) && db.layouts == old(db.layouts)
    ensures var found := OfOrder(old(db.transactions), orderId);
      if |found| == 0 then r == Fail(NotFound, "Transaction not found") && unchanged(db)
      else if biddingId !in old(db.biddings) then r == Fail(NotFound, "Bidding not found") && unchanged(db)
      else if !signatureValid then
        r == Fail(BadRequest, "Invalid payment signature")
        && db.transactions == ReplaceTx(old(db.transactions), found[0].(paymentStatus := TxFailed))
        && db.biddings == old(db.biddings)
      else
        var t := found[0];
        var b := old(db.biddings)[biddingId];
        db.transactions == ReplaceTx(old(db.transactions), t.(paymentId := paymentId, paymentStatus := TxSuccess))
        && r.Ok? && db.biddings == old(db.biddings)[biddingId := r.value]
        && r.value == b.(bids := b.bids + [Bid(old(db.nextId), user, t.amount, now, Pending, Some(t.id))], updatedAt := now)
  {
    var found := OfOrder(db.transactions, orderId);
    if |found| == 0 {
      return Fail(NotFound, "Transaction not found");
    }
    if biddingId !in db.biddings {
      return Fail(NotFound, "Bidding not found");
    }
    var t := found[0];
    assert t in db.transactions;
    if !signatureValid {
      db.SaveTransaction(t.(paymentStatus := TxFailed));
      return Fail(BadRequest, "Invalid payment signature");
    }
    db.SaveTransaction(t.(paymentId := paymentId, paymentStatus := TxSuccess));
    var b := db.biddings[biddingId];
    var bidId := db.FreshId();
    var nb := b.(bids := b.bids + [Bid(bidId, user, t.amount, now, Pending, Some(t.id))]);
    assert BidsBelow(nb, db.nextId) by {
      assert BidsBelow(b, bidId);
    }
    db.SaveBidding(biddingId, nb, now);
    r := Ok(nb.(updatedAt := now));
  }

  /** What closing an auction awards: for a bidding with bids, the winner
    * index; the first bid with the largest amount. */
  lemma FinalizeAwards(b: Bidding, settled: seq<Bid>)
    requires |b.bids| > 0 && DistinctBidIds(b.bids)
    requires SettledBy(b.bids, settled, b.bids[TopBid(b.bids)].id)
    ensures var w := TopBid(b.bids);
      b.bids[w].amount == HighestBid(b)
      && (forall i :: 0 <= i < |b.bids| ==> b.bids[i].amount <= b.bids[w].amount)
      && (forall i :: 0 <= i < w ==> b.bids[i].amount < b.bids[w].amount)
      && (forall i :: 0 <= i < |settled| ==> (settled[i].status == Accepted <==> i == w))
      && (forall i :: 0 <= i < |settled| && i != w ==> settled[i].status == Rejected)
  {
    ExactlyOneAccepted(b.bids, settled, TopBid(b.bids));
  }

  /** `finalizeBidding`: without bids the space is released; otherwise the
    * first highest bid is accepted, every other one rejected, and the space
    * goes to its bidder at its amount. */
  method FinalizeBidding(db: Db, biddingId: nat, now: int) returns (r: Outcome<()>)
    requires db.Valid()
    modifies db
    ensures db.Valid()
    ensures db.transactions == old(db.transactions) && db.layouts == old(db.layouts)
    ensures biddingId !in old(db.biddings) ==> r == Fail(NotFound, "Bidding not found") && unchanged(db)
    ensures biddingId in old(db.biddings) ==>
      var b := old(db.biddings)[biddingId];
      if b.status == Completed then r == Fail(BadRequest, "This bidding is already finalized") && unchanged(db)
      else if b.endDate > now then r == Fail(BadRequest, "Bidding period is not yet over") && unchanged(db)
      else if b.gridSpace !in old(db.spaces) then r == Fail(NotFound, "Grid space not found") && unchanged(db)
      else
        var s := old(db.spaces)[b.gridSpace];
        r.Ok? && biddingId in db.biddings
        && (|b.bids| == 0 ==>
          db.biddings == old(db.biddings)[biddingId := b.(status := Completed, updatedAt := now)]
          && db.spaces == old(db.spaces)[b.gridSpace := s.(status := Available, activeBidding := None, updatedAt := now)])
        && (|b.bids| > 0 ==>
          var w := b.bids[TopBid(b.bids)];
          var nb := db.biddings[biddingId];
          db.biddings == old(db.biddings)[biddingId := nb]
          && nb == b.(status := Completed, bids := nb.bids, winningBid := w.transactionId, updatedAt := now)
          && SettledBy(b.bids, nb.bids, w.id)
          && db.spaces == old(db.spaces)[b.gridSpace :=
               s.(status := Purchased, owner := Some(w.user), price := Some(w.amount), activeBidding := None, updatedAt := now)])
  {
    if biddingId !in db.biddings {
      return Fail(NotFound, "Bidding not found");
    }
    var b := db.biddings[biddingId];
    if b.status == Completed {
      return Fail(BadRequest, "This bidding is already finalized");
    }
    if b.endDate > now {
      return Fail(BadRequest, "Bidding period is not yet over");
    }
    if b.gridSpace !in db.spaces {
      return Fail(NotFound, "Grid space not found");
    }
    var s := db.spaces[b.gridSpace];
    if |b.bids| == 0 {
      db.SaveSpace(b.gridSpace, s.(status := Available, activeBidding := None), now);
      db.SaveBidding(biddingId, b.(status := Completed), now);
      return Ok(());
    }
    var w := b.bids[TopBid(b.bids)];
    var settled := SettleBids(b.bids, w.id);
    var nb := b.(status := Completed, bids := settled, winningBid := w.transactionId);
    assert BidsBelow(nb, db.nextId) by {
      assert forall k :: 0 <= k < |settled| ==> settled[k].id == b.bids[k].id;
    }
    db.SaveBidding(biddingId, nb, now);
    db.SaveSpace(b.gridSpace, s.(status := Purchased, owner := Some(w.user), price := Some(w.amount), activeBidding := None), now);
    r := Ok(());
  }
}
