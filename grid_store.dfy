/**
 * The collections behind the layout marketplace: grid spaces, layouts and
 * biddings by id, and payment transactions in insertion order.  Ids come
 * from one counter and are never reused.  Saving a grid space or a bidding
 * runs its pre-save hook, which stamps `updatedAt` with the current time.
 */
module GridStore {
  import opened Wrappers
  import opened GridSpaces
  import opened Biddings

  predicate TxIdsBelow(txs: seq<Transaction>, n: nat) {
    forall k :: 0 <= k < |txs| ==> txs[k].id < n
  }

  predicate TxIdsDistinct(txs: seq<Transaction>) {
    forall i, j :: 0 <= i < j < |txs| ==> txs[i].id != txs[j].id
  }

  /** The transactions of one gateway order, in insertion order
    * (`Transaction.find({ orderId })`). */
  function OfOrder(txs: seq<Transaction>, orderId: string): (r: seq<Transaction>)
    ensures |r| <= |txs|
    ensures forall t :: t in r <==> t in txs && t.orderId == orderId
    decreases |txs|
  {
    if |txs| == 0 then []
    else if txs[0].orderId == orderId then [txs[0]] + OfOrder(txs[1..], orderId)
    else OfOrder(txs[1..], orderId)
  }

  /** Replaces the transaction with `t`'s id by `t`. */
  function ReplaceTx(txs: seq<Transaction>, t: Transaction): (r: seq<Transaction>)
    ensures |r| == |txs|
    ensures forall k :: 0 <= k < |txs| ==> r[k] == if txs[k].id == t.id then t else txs[k]
  {
    seq(|txs|, k requires 0 <= k < |txs| => if txs[k].id == t.id then t else txs[k])
  }

  /** The bids of a bidding have distinct ids, all issued below `n`. */
  predicate BidsBelow(b: Bidding, n: nat) {
    DistinctBidIds(b.bids) && forall k :: 0 <= k < |b.bids| ==> b.bids[k].id < n
  }

  class Db {
    var spaces: map<nat, GridSpace>
    var layouts: map<nat, GridLayout>
    var biddings: map<nat, Bidding>
    var transactions: seq<Transaction>
    var nextId: nat

    ghost predicate Valid()
      reads this
    {
      (forall id :: id in spaces ==> id < nextId)
      && (forall id :: id in layouts ==> id < nextId)
      && (forall id :: id in biddings ==> id < nextId && BidsBelow(biddings[id], nextId))
      && TxIdsBelow(transactions, nextId) && TxIdsDistinct(transactions)
    }

    constructor ()
      ensures Valid()
      ensures spaces == map[] && layouts == map[] && biddings == map[] && transactions == []
    {
      spaces := map[];
      layouts := map[];
      biddings := map[];
      transactions := [];
      nextId := 0;
    }

    /** `space.save()`: the pre-save hook sets `updatedAt` to `now`. */
    method SaveSpace(id: nat, s: GridSpace, now: int)
      requires Valid() && id in spaces
      modifies this
      ensures Valid()
      ensures spaces == old(spaces)[id := s.(updatedAt := now)]
      ensures layouts == old(layouts) && biddings == old(biddings)
      ensures transactions == old(transactions) && nextId == old(nextId)
    {
      spaces := spaces[id := s.(updatedAt := now)];
    }

    /** A fresh object id, as for a new sub-document. */
    method FreshId() returns (id: nat)
      requires Valid()
      modifies this
      ensures Valid() && id == old(nextId) && nextId == id + 1
      ensures spaces == old(spaces) && layouts == old(layouts)
      ensures biddings == old(biddings) && transactions == old(transactions)
    {
      id := nextId;
      nextId := nextId + 1;
    }

    /** `GridSpace.create(s)`: stored under a fresh id. */
    method CreateSpace(s: GridSpace) returns (id: nat)
      requires Valid()
      modifies this
      ensures Valid() && id == old(nextId) && nextId == id + 1
      ensures id !in old(spaces) && spaces == old(spaces)[id := s]
      ensures layouts == old(layouts) && biddings == old(biddings) && transactions == old(transactions)
    {
      id := nextId;
      spaces := spaces[id := s];
      nextId := nextId + 1;
    }

    /** `GridSpace.deleteMany({ _id: { $in: ids } })`. */
    method DeleteSpaces(ids: seq<nat>)
      requires Valid()
      modifies this
      ensures Valid()
      ensures spaces == map id | id in old(spaces) && id !in ids :: old(spaces)[id]
      ensures layouts == old(layouts) && biddings == old(biddings)
      ensures transactions == old(transactions) && nextId == old(nextId)
    {
      spaces := map id | id in spaces && id !in ids :: spaces[id];
    }

    /** `bidding.save()`: the pre-save hook sets `updatedAt` to `now`. */
    method SaveBidding(id: nat, b: Bidding, now: int)
      requires Valid() && id in biddings && BidsBelow(b, nextId)
      modifies this
      ensures Valid()
      ensures biddings == old(biddings)[id := b.(updatedAt := now)]
      ensures spaces == old(spaces) && layouts == old(layouts)
      ensures transactions == old(transactions) && nextId == old(nextId)
    {
      biddings := biddings[id := b.(updatedAt := now)];
    }

    /** `Bidding.create(b)`, through the same save hook. */
    method CreateBidding(b: Bidding, now: int) returns (id: nat)
      requires Valid() && BidsBelow(b, nextId)
      modifies this
      ensures Valid() && id == old(nextId) && nextId == id + 1
      ensures id !in old(biddings) && biddings == old(biddings)[id := b.(updatedAt := now)]
      ensures spaces == old(spaces) && layouts == old(layouts) && transactions == old(transactions)
    {
      id := nextId;
      biddings := biddings[id := b.(updatedAt := now)];
      nextId := nextId + 1;
    }

    /** `Transaction.create(t)`: appended under a fresh id. */
    method CreateTransaction(t: Transaction) returns (stored: Transaction)
      requires Valid()
      modifies this
      ensures Valid() && stored == t.(id := old(nextId)) && nextId == old(nextId) + 1
      ensures transactions == old(transactions) + [stored]
      ensures spaces == old(spaces) && layouts == old(layouts) && biddings == old(biddings)
    {
      stored := t.(id := nextId);
      transactions := transactions + [stored];
      nextId := nextId + 1;
    }

    /** `tx.save()` on a stored transaction. */
    method SaveTransaction(t: Transaction)
      requires Valid() && exists k :: 0 <= k < |transactions| && transactions[k].id == t.id
      modifies this
      ensures Valid()
      ensures transactions == ReplaceTx(old(transactions), t)
      ensures spaces == old(spaces) && layouts == old(layouts)
      ensures biddings == old(biddings) && nextId == old(nextId)
    {
      transactions := ReplaceTx(transactions, t);
    }

    /** `GridLayout.create(l)`: stored under a fresh id. */
    method CreateLayout(l: GridLayout) returns (id: nat)
      requires Valid()
      modifies this
      ensures Valid() && id == old(nextId) && nextId == id + 1
      ensures id !in old(layouts) && layouts == old(layouts)[id := l]
      ensures spaces == old(spaces) && biddings == old(biddings) && transactions == old(transactions)
    {
      id := nextId;
      layouts := layouts[id := l];
      nextId := nextId + 1;
    }

    /** `layout.save()` on a stored layout. */
    method SaveLayout(id: nat, l: GridLayout)
      requires Valid() && id in layouts
      modifies this
      ensures Valid()
      ensures layouts == old(layouts)[id := l]
      ensures spaces == old(spaces) && biddings == old(biddings)
      ensures transactions == old(transactions) && nextId == old(nextId)
    {
      layouts := layouts[id := l];
    }

    /** `layout.deleteOne()`. */
    method DeleteLayout(id: nat)
      requires Valid()
      modifies this
      ensures Valid()
      ensures layouts == old(layouts) - {id}
      ensures spaces == old(spaces) && biddings == old(biddings)
      ensures transactions == old(transactions) && nextId == old(nextId)
    {
      layouts := layouts - {id};
    }
  }
}
