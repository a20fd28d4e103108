/**
 * The auction document of a grid space: its bids, whether it is still
 * open, the amount a new bid has to beat, and which bid wins.
 */
module Biddings {
  import opened Wrappers

  datatype BidStatus = Pending | Accepted | Rejected

  datatype BiddingStatus = Active | Completed

  datatype Bid = Bid(id: nat, user: nat, amount: real, timestamp: int, status: BidStatus, transactionId: Option<nat>)

  datatype Bidding = Bidding(
    gridSpace: nat,
    startDate: int,
    endDate: int,
    minimumBid: real,
    status: BiddingStatus,
    bids: seq<Bid>,
    winningBid: Option<nat>,
    createdBy: Option<nat>,
    createdAt: int,
    updatedAt: int)

  /** `Bidding.create({...})` at time `now`: no bids, no winner, active. */
  function NewBidding(gridSpace: nat, startDate: int, endDate: int, minimumBid: real,
                      createdBy: nat, now: int): (b: Bidding)
    ensures b.status == Active && b.bids == [] && b.winningBid.None?
    ensures b.gridSpace == gridSpace && b.startDate == startDate && b.endDate == endDate
    ensures b.minimumBid == minimumBid && b.createdBy == Some(createdBy)
  {
    Bidding(gridSpace, startDate, endDate, minimumBid, Active, [], None, Some(createdBy), now, now)
  }

  /** `isActive()` at time `now`: open and not yet past its end. */
  predicate IsActive(b: Bidding, now: int) {
    b.status == Active && now < b.endDate
  }

  /** The largest bid amount. */
  function MaxAmount(bids: seq<Bid>): (m: real)
    requires |bids| > 0
    ensures forall i :: 0 <= i < |bids| ==> bids[i].amount <= m
    ensures exists i :: 0 <= i < |bids| && bids[i].amount == m
    decreases |bids|
  {
    if |bids| == 1 then bids[0].amount
    else
      var m := MaxAmount(bids[..|bids| - 1]);
      var last := bids[|bids| - 1].amount;
      if last > m then last else m
  }

  /** `getHighestBid()`: the minimum bid while there is no bid, otherwise
    * the largest amount bid, whether or not it reaches the minimum. */
  function HighestBid(b: Bidding): (h: real)
    ensures |b.bids| == 0 ==> h == b.minimumBid
    ensures |b.bids| > 0 ==>
      (forall i :: 0 <= i < |b.bids| ==> b.bids[i].amount <= h)
      && exists i :: 0 <= i < |b.bids| && b.bids[i].amount == h
  {
    if |b.bids| == 0 then b.minimumBid else MaxAmount(b.bids)
  }

  /** A bid above the current highest becomes the new highest. */
  lemma RaiseHighest(b: Bidding, bid: Bid)
    requires bid.amount > HighestBid(b)
    ensures HighestBid(b.(bids := b.bids + [bid])) == bid.amount
  {
    var nb := b.(bids := b.bids + [bid]);
    assert nb.bids[|nb.bids| - 1] == bid;
    assert forall i :: 0 <= i < |b.bids| ==> nb.bids[i] == b.bids[i];
  }

  /** The first bid with the largest amount: the head of the bids sorted by
    * amount, largest first, with a stable sort (`sortedBids[0]`). */
  function TopBid(bids: seq<Bid>): (i: nat)
    requires |bids| > 0
    ensures i < |bids| && bids[i].amount == MaxAmount(bids)
    ensures forall j :: 0 <= j < i ==> bids[j].amount < bids[i].amount
    decreases |bids|
  {
    if |bids| == 1 then 0
    else
      var k := TopBid(bids[..|bids| - 1]);
      if bids[|bids| - 1].amount > bids[k].amount then |bids| - 1 else k
  }

  /** The winner is the one bid that outbids every earlier bid and is
    * matched by no later one. */
  lemma TopBidUnique(bids: seq<Bid>, i: nat)
    requires i < |bids|
    requires forall j :: 0 <= j < i ==> bids[j].amount < bids[i].amount
    requires forall j :: i < j < |bids| ==> bids[j].amount <= bids[i].amount
    ensures TopBid(bids) == i
  {
    var t := TopBid(bids);
    assert bids[t].amount == MaxAmount(bids) >= bids[i].amount;
  }

  predicate DistinctBidIds(bids: seq<Bid>) {
    forall i, j :: 0 <= i < j < |bids| ==> bids[i].id != bids[j].id
  }

  /** The bid statuses the finalising loop writes: `accepted` for the bid
    * whose id is the winner's, `rejected` for every other one. */
  predicate SettledBy(bids: seq<Bid>, settled: seq<Bid>, winnerId: nat) {
    |settled| == |bids|
    && forall i :: 0 <= i < |bids| ==>
      settled[i] == bids[i].(status := if bids[i].id == winnerId then Accepted else Rejected)
  }

  /** With distinct bid ids exactly one bid is accepted, the winner; every
    * other bid is rejected and nothing but the statuses changes. */
  lemma ExactlyOneAccepted(bids: seq<Bid>, settled: seq<Bid>, w: nat)
    requires DistinctBidIds(bids) && w < |bids| && SettledBy(bids, settled, bids[w].id)
    ensures forall i :: 0 <= i < |settled| ==> (settled[i].status == Accepted <==> i == w)
    ensures forall i :: 0 <= i < |settled| && i != w ==> settled[i].status == Rejected
    ensures forall i :: 0 <= i < |settled| ==>
      settled[i].id == bids[i].id && settled[i].user == bids[i].user && settled[i].amount == bids[i].amount
  {
    forall i | 0 <= i < |settled| && i != w
      ensures settled[i].status == Rejected
    {
      if i < w {
        assert bids[i].id != bids[w].id;
      } else {
        assert bids[w].id != bids[i].id;
      }
    }
  }

  /** The `for` loop of `finalizeBidding` over `bidding.bids`. */
  method SettleBids(bids: seq<Bid>, winnerId: nat) returns (settled: seq<Bid>)
    ensures SettledBy(bids, settled, winnerId)
  {
    settled := [];
    var i := 0;
    while i < |bids|
      invariant 0 <= i <= |bids| && |settled| == i
      invariant forall k :: 0 <= k < i ==>
        settled[k] == bids[k].(status := if bids[k].id == winnerId then Accepted else Rejected)
    {
      var bid := bids[i];
      if bid.id == winnerId {
        settled := settled + [bid.(status := Accepted)];
      } else {
        settled := settled + [bid.(status := Rejected)];
      }
      i := i + 1;
    }
  }
}
