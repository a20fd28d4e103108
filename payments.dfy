/**
 * Buying grid spaces: `createOrder` reserves the requested spaces and opens
 * one payment transaction per space under a gateway order, and
 * `verifyPayment` settles every transaction of the order, either releasing
 * the spaces (bad signature) or handing them to the payer for thirty days.
 * The gateway's order id and the validity of the payment signature are
 * inputs; space ids are rendered in decimal where the handlers print them.
 */
module Payments {
  import opened Wrappers
  import opened Api
  import Text
  import opened GridSpaces
  import opened GridStore
  import App
  import Sorting


  function IdText(id: nat): string {
    Text.NatToString(id)
  }

  predicate Distinct(s: seq<nat>) {
    forall i, j :: 0 <= i < j < |s| ==> s[i] != s[j]
  }

  // ---------------------------------------------------------------------
  // createOrder

  /** `receipt_${Date.now()}`. */
  function Receipt(now: nat): string {
    "receipt_" + Text.NatToString(now)
  }

  /** `GridSpace.find({ _id: { $in: ids } })`: each stored space among the
    * requested ids once, in the order first requested. */
  function Found(ids: seq<nat>, spaces: map<nat, GridSpace>): (r: seq<nat>)
    ensures |r| <= |ids|
    ensures forall id :: id in r <==> id in ids && id in spaces
    decreases |ids|
  {
    if |ids| == 0 then []
    else
      var n := |ids| - 1;
      var id := ids[n];
      Found(ids[..n], spaces) + (if id in spaces && id !in ids[..n] then [id] else [])
  }

  /** Every requested id is found exactly when the request is duplicate-free
    * and names only stored spaces. */
  lemma {:induction false} FoundAll(ids: seq<nat>, spaces: map<nat, GridSpace>)
    ensures |Found(ids, spaces)| == |ids| <==> Distinct(ids) && forall id :: id in ids ==> id in spaces
    ensures |Found(ids, spaces)| == |ids| ==> Found(ids, spaces) == ids
    decreases |ids|
  {
    if |ids| > 0 {
      var n := |ids| - 1;
      FoundAll(ids[..n], spaces);
      assert ids == ids[..n] + [ids[n]];
      if |Found(ids, spaces)| == |ids| {
        assert |Found(ids[..n], spaces)| == n;
        assert forall id :: id in ids[..n] ==> id in ids;
      }
    }
  }

  /** The space may go into an order by `user`: not purchased, and not
    * reserved unless `user` owns the reservation. */
  predicate Admissible(s: GridSpace, user: nat) {
    s.status != Purchased && !(s.status == Reserved && s.owner != Some(user))
  }

  /** The check loop over the found spaces: the first that may not be
    * ordered is reported. */
  function Blocked(found: seq<nat>, spaces: map<nat, GridSpace>, user: nat): (r: Outcome<()>)
    requires forall k :: 0 <= k < |found| ==> found[k] in spaces
    ensures r.Ok? <==> forall k :: 0 <= k < |found| ==> Admissible(spaces[found[k]], user)
    ensures r.Err? ==> r.error.status == BadRequest
    decreases |found|
  {
    if |found| == 0 then Ok(())
    else
      var s := spaces[found[0]];
      if s.status == Purchased then
        Fail(BadRequest, "Grid space " + IdText(found[0]) + " is already purchased")
      else if s.status == Reserved && s.owner != Some(user) then
        Fail(BadRequest, "Grid space " + IdText(found[0]) + " is reserved by another user")
      else
        assert forall k :: 1 <= k < |found| ==> found[k] == found[1..][k - 1];
        Blocked(found[1..], spaces, user)
  }

  /** The guards of `createOrder`, yielding the spaces to order. */
  function OrderCheck(ids: Option<seq<nat>>, amount: Option<real>, spaces: map<nat, GridSpace>, user: nat)
    : (r: Outcome<seq<nat>>)
    ensures r.Ok? ==> ids.Some? && r.value == ids.value
  {
    if ids.None? || amount.None? || amount.value == 0.0 then Fail(BadRequest, "Please provide all required fields")
    else
      var found := Found(ids.value, spaces);
      if |found| != |ids.value| then Fail(NotFound, "Some grid spaces not found")
      else
        FoundAll(ids.value, spaces);
        var _ :- Blocked(found, spaces, user);
        Ok(found)
  }

  /** An order goes ahead exactly when both fields are given, every id is
    * a distinct stored space, and none is purchased or reserved by someone
    * else. */
  lemma OrderAccepted(ids: Option<seq<nat>>, amount: Option<real>, spaces: map<nat, GridSpace>, user: nat)
    ensures OrderCheck(ids, amount, spaces, user).Ok? <==>
      (ids.Some? && amount.Some? && amount.value != 0.0 && Distinct(ids.value)
       && (forall id :: id in ids.value ==> id in spaces)
       && forall id :: id in ids.value ==> Admissible(spaces[id], user))
  {
    if ids.Some? {
      FoundAll(ids.value, spaces);
    }
  }

  /** The gateway order: the amount in paise. */
  datatype Order = Order(id: string, paise: real, currency: string, receipt: string)

  /** The transaction `createOrder` opens for one space. */
  function OrderTx(id: nat, user: nat, space: nat, unit: real, orderId: string, receipt: string, now: int): Transaction {
    Transaction(id, user, [space], unit, "INR", "", orderId, TxInitiated, receipt, now)
  }

  /** The transactions of an order over `found`, under the ids from `start`. */
  function OrderTxs(found: seq<nat>, user: nat, unit: real, orderId: string, receipt: string, start: nat, now: int)
    : (r: seq<Transaction>)
    ensures |r| == |found|
  {
    seq(|found|, k requires 0 <= k < |found| => OrderTx(start + k, user, found[k], unit, orderId, receipt, now))
  }

  /** `amount / gridSpaceIds.length`; with no spaces it is never used. */
  function UnitAmount(amount: real, n: nat): real {
    if n == 0 then 0.0 else amount / n as real
  }

  function Total(txs: seq<Transaction>): real
    decreases |txs|
  {
    if |txs| == 0 then 0.0 else Total(txs[..|txs| - 1]) + txs[|txs| - 1].amount
  }

  /** The transactions of an order add up to the amount requested. */
  lemma OrderTotal(found: seq<nat>, user: nat, amount: real, orderId: string, receipt: string, start: nat, now: int)
    requires |found| > 0
    ensures Total(OrderTxs(found, user, UnitAmount(amount, |found|), orderId, receipt, start, now)) == amount
  {
    var unit := UnitAmount(amount, |found|);
    TotalOfEqual(OrderTxs(found, user, unit, orderId, receipt, start, now), unit);
    assert |found| as real * (amount / |found| as real) == amount;
  }

  lemma {:induction false} TotalOfEqual(txs: seq<Transaction>, unit: real)
    requires forall k :: 0 <= k < |txs| ==> txs[k].amount == unit
    ensures Total(txs) == |txs| as real * unit
    decreases |txs|
  {
    if |txs| > 0 {
      TotalOfEqual(txs[..|txs| - 1], unit);
    }
  }

  /** `space.status = "reserved"; await space.save()` for each ordered
    * space; the owner and the expiry are left as they were. */
  function ReserveAll(spaces: map<nat, GridSpace>, found: seq<nat>, now: int): (r: map<nat, GridSpace>)
    ensures r.Keys == spaces.Keys
  {
    map id | id in spaces :: if id in found then spaces[id].(status := Reserved, updatedAt := now) else spaces[id]
  }

  /** `createOrder`.  The response holds the order and its transactions. */
  method CreateOrder(db: Db, ids: Option<seq<nat>>, amount: Option<real>, user: nat, orderId: string, now: nat)
    returns (r: Outcome<(Order, seq<Transaction>)>)
    requires db.Valid()
    modifies db
    ensures db.Valid()
    ensures OrderCheck(ids, amount, old(db.spaces), user).Err? ==>
      r == Err(OrderCheck(ids, amount, old(db.spaces), user).error) && unchanged(db)
    ensures OrderCheck(ids, amount, old(db.spaces), user).Ok? ==>
      var found := ids.value;
      var txs := OrderTxs(found, user, UnitAmount(amount.value, |found|), orderId, Receipt(now), old(db.nextId), now);
      r == Ok((Order(orderId, amount.value * 100.0, "INR", Receipt(now)), txs))
      && db.transactions == old(db.transactions) + txs
      && db.spaces == ReserveAll(old(db.spaces), found, now)
      && db.layouts == old(db.layouts) && db.biddings == old(db.biddings)
  {
    var check := OrderCheck(ids, amount, db.spaces, user);
    if check.Err? {
      return Err(check.error);
    }
    var found := check.value;
    var receipt := Receipt(now);
    var order := Order(orderId, amount.value * 100.0, "INR", receipt);
    var txs := OpenOrder(db, found, user, UnitAmount(amount.value, |found|), orderId, receipt, now);
    r := Ok((order, txs));
  }

  /** The loop of `createOrder`: a transaction per space, and the space
    * marked reserved. */
  method OpenOrder(db: Db, found: seq<nat>, user: nat, unit: real, orderId: string, receipt: string, now: int)
    returns (txs: seq<Transaction>)
    requires db.Valid() && forall k :: 0 <= k < |found| ==> found[k] in db.spaces
    modifies db
    ensures db.Valid()
    ensures txs == OrderTxs(found, user, unit, orderId, receipt, old(db.nextId), now)
    ensures db.transactions == old(db.transactions) + txs
    ensures db.spaces == ReserveAll(old(db.spaces), found, now)
    ensures db.layouts == old(db.layouts) && db.biddings == old(db.biddings)
  {
    txs := [];
    var i := 0;
    while i < |found|
      invariant 0 <= i <= |found|
      invariant db.Valid() && db.nextId == old(db.nextId) + i
      invariant txs == OrderTxs(found[..i], user, unit, orderId, receipt, old(db.nextId), now)
      invariant db.transactions == old(db.transactions) + txs
      invariant db.spaces == ReserveAll(old(db.spaces), found[..i], now)
      invariant db.layouts == old(db.layouts) && db.biddings == old(db.biddings)
    {
      var t := db.CreateTransaction(OrderTx(0, user, found[i], unit, orderId, receipt, now));
      OrderTxsStep(found, user, unit, orderId, receipt, old(db.nextId), now, i);
      ReserveStep(old(db.spaces), found, i, now);
      db.SaveSpace(found[i], db.spaces[found[i]].(status := Reserved), now);
      txs := txs + [t];
      i := i + 1;
    }
    assert found[..i] == found;
  }

  lemma OrderTxsStep(found: seq<nat>, user: nat, unit: real, orderId: string, receipt: string, start: nat,
                     now: int, i: nat)
    requires i < |found|
    ensures OrderTxs(found[..i + 1], user, unit, orderId, receipt, start, now)
      == OrderTxs(found[..i], user, unit, orderId, receipt, start, now)
         + [OrderTx(start + i, user, found[i], unit, orderId, receipt, now)]
  {
  }

  lemma ReserveStep(spaces: map<nat, GridSpace>, found: seq<nat>, i: nat, now: int)
    requires i < |found| && found[i] in spaces
    ensures ReserveAll(spaces, found[..i + 1], now)
      == ReserveAll(spaces, found[..i], now)[found[i] := spaces[found[i]].(status := Reserved, updatedAt := now)]
  {
    assert found[..i + 1] == found[..i] + [found[i]];
  }

  /** An ordered space keeps its owner, so a space that had none can be
    * ordered again by nobody, the buyer included, until the payment is
    * verified or fails. */
  lemma UnownedOrderLocks(spaces: map<nat, GridSpace>, found: seq<nat>, user: nat, now: int)
    requires forall k :: 0 <= k < |found| ==> found[k] in spaces
    requires |found| > 0 && spaces[found[0]].owner.None?
    ensures Blocked(found, ReserveAll(spaces, found, now), user)
      == Fail(BadRequest, "Grid space " + IdText(found[0]) + " is reserved by another user")
  {
  }

  /** An order leaves no expiry on a space that had none, so the nightly
    * job never lifts its reservation. */
  lemma UnpaidOrderNeverLapses(spaces: map<nat, GridSpace>, found: seq<nat>, now: int, later: int, id: nat)
    requires id in found && id in spaces && spaces[id].reservationExpiresAt.None?
    ensures App.ExpireReservations(ReserveAll(spaces, found, now), later)[id].status == Reserved
  {
  }

  // ---------------------------------------------------------------------
  // verifyPayment

  /** The state one transaction of the order is saved in. */
  function Settled(t: Transaction, success: bool, paymentId: string): Transaction {
    if success then t.(paymentId := paymentId, paymentStatus := TxSuccess) else t.(paymentStatus := TxFailed)
  }

  /** Every transaction of the order settled, every other one as it was. */
  function SettleOrder(txs: seq<Transaction>, orderId: string, success: bool, paymentId: string)
    : (r: seq<Transaction>)
    ensures |r| == |txs|
  {
    seq(|txs|, k requires 0 <= k < |txs| =>
      if txs[k].orderId == orderId then Settled(txs[k], success, paymentId) else txs[k])
  }

  /** The space ids the transactions list, in order (`flatMap`). */
  function SpacesOf(txs: seq<Transaction>): (r: seq<nat>)
    ensures forall id :: id in r <==> exists k :: 0 <= k < |txs| && id in txs[k].gridSpaces
    decreases |txs|
  {
    if |txs| == 0 then []
    else
      var n := |txs| - 1;
      var r := SpacesOf(txs[..n]) + txs[n].gridSpaces;
      assert forall k :: 0 <= k < n ==> txs[..n][k] == txs[k];
      r
  }

  /** `space.status = "available"; await space.save()` for each listed
    * space still stored; owner and expiry are left as they were. */
  function Released(spaces: map<nat, GridSpace>, ids: seq<nat>, now: int): (r: map<nat, GridSpace>)
    ensures r.Keys == spaces.Keys
  {
    map id | id in spaces :: if id in ids then spaces[id].(status := Available, updatedAt := now) else spaces[id]
  }

  lemma ReleasedTwice(spaces: map<nat, GridSpace>, a: seq<nat>, b: seq<nat>, now: int)
    ensures Released(Released(spaces, a, now), b, now) == Released(spaces, a + b, now)
  {
  }

  /** `transactions.find((t) => t.gridSpaces[0].toString() === id)`: a
    * transaction listing no space before the match makes the lookup throw. */
  function TxFor(txs: seq<Transaction>, id: nat): (r: Outcome<Option<Transaction>>)
    ensures r.Ok? && r.value.Some? ==>
      r.value.value in txs && |r.value.value.gridSpaces| > 0 && r.value.value.gridSpaces[0] == id
    decreases |txs|
  {
    if |txs| == 0 then Ok(None)
    else if |txs[0].gridSpaces| == 0 then Fail(ServerError, "Cannot read properties of undefined (reading 'toString')")
    else if txs[0].gridSpaces[0] == id then Ok(Some(txs[0]))
    else TxFor(txs[1..], id)
  }

  /** A purchased space: owned by the payer and priced at its own
    * transaction's amount when it has one.  The display dates the handler
    * also assigns are not schema paths, so they are not stored; every
    * other path is kept. */
  function Bought(s: GridSpace, owner: nat, t: Option<Transaction>, now: int): (b: GridSpace)
    ensures b.status == Purchased && b.owner == Some(owner) && b.updatedAt == now
    ensures b.price == (if t.Some? then Some(t.value.amount) else s.price)
    ensures b.(status := s.status, owner := s.owner, price := s.price, updatedAt := s.updatedAt) == s
  {
    s.(status := Purchased, owner := Some(owner),
       price := if t.Some? then Some(t.value.amount) else s.price, updatedAt := now)
  }

  /** The spaces after a verified payment of `txs`: every listed, stored
    * space whose transaction lookup succeeds is bought by the first
    * transaction's user. */
  function Purchases(spaces: map<nat, GridSpace>, txs: seq<Transaction>, ids: seq<nat>, now: int)
    : (r: map<nat, GridSpace>)
    requires |txs| > 0
    ensures r.Keys == spaces.Keys
  {
    map id | id in spaces :: if id in ids && TxFor(txs, id).Ok? then Bought(spaces[id], txs[0].user, TxFor(txs, id).value, now) else spaces[id]
  }

  /** `[...new Set(ids)]`: the first occurrence of each id. */
  function Unique(ids: seq<nat>): (r: seq<nat>)
    ensures forall id :: id in r <==> id in ids
    decreases |ids|
  {
    if |ids| == 0 then []
    else
      var n := |ids| - 1;
      Unique(ids[..n]) + (if ids[n] in ids[..n] then [] else [ids[n]])
  }

  /** Some listed, stored space cannot find its transaction. */
  predicate LookupFails(spaces: map<nat, GridSpace>, txs: seq<Transaction>) {
    exists id :: id in SpacesOf(txs) && id in spaces && TxFor(txs, id).Err?
  }

  /** `verifyPayment`.  On success the response holds the settled
    * transactions and the ids of the spaces bought. */
  method VerifyPayment(db: Db, orderId: string, paymentId: string, signatureValid: bool, now: int)
    returns (r: Outcome<(seq<Transaction>, seq<nat>)>)
    requires db.Valid()
    modifies db
    ensures db.Valid()
    ensures db.layouts == old(db.layouts) && db.biddings == old(db.biddings)
    ensures var found := OfOrder(old(db.transactions), orderId);
      if |found| == 0 then r == Fail(NotFound, "No transactions found for this order") && unchanged(db)
      else if !signatureValid then
        r == Fail(BadRequest, "Invalid payment signature")
        && db.transactions == SettleOrder(old(db.transactions), orderId, false, paymentId)
        && db.spaces == Released(old(db.spaces), SpacesOf(found), now)
      else
        db.transactions == SettleOrder(old(db.transactions), orderId, true, paymentId)
        && db.spaces == Purchases(old(db.spaces), found, SpacesOf(found), now)
        && (LookupFails(old(db.spaces), found) ==>
              r == Fail(ServerError, "Cannot read properties of undefined (reading 'toString')"))
        && (!LookupFails(old(db.spaces), found) ==>
              r == Ok((seq(|found|, k requires 0 <= k < |found| => Settled(found[k], true, paymentId)),
                       Found(Unique(SpacesOf(found)), old(db.spaces)))))
  {
    var found := OfOrder(db.transactions, orderId);
    if |found| == 0 {
      return Fail(NotFound, "No transactions found for this order");
    }
    SettleAll(db, found, orderId, signatureValid, paymentId);
    if !signatureValid {
      ReleaseAll(db, found, now);
      return Fail(BadRequest, "Invalid payment signature");
    }
    var settled := seq(|found|, k requires 0 <= k < |found| => Settled(found[k], true, paymentId));
    var bought, failed := PurchaseAll(db, found, now);
    if failed {
      return Fail(ServerError, "Cannot read properties of undefined (reading 'toString')");
    }
    r := Ok((settled, bought));
  }

  /** Saves every transaction of the order in its settled state. */
  method SettleAll(db: Db, found: seq<Transaction>, orderId: string, success: bool, paymentId: string)
    requires db.Valid() && found == OfOrder(db.transactions, orderId)
    modifies db
    ensures db.Valid()
    ensures db.transactions == SettleOrder(old(db.transactions), orderId, success, paymentId)
    ensures db.spaces == old(db.spaces) && db.layouts == old(db.layouts)
    ensures db.biddings == old(db.biddings) && db.nextId == old(db.nextId)
  {
    ghost var t0 := db.transactions;
    ghost var done: set<nat> := {};
    var i := 0;
    while i < |found|
      invariant 0 <= i <= |found|
      invariant db.Valid() && done == IdsOf(found[..i])
      invariant db.transactions == SettleIds(t0, done, success, paymentId)
      invariant db.spaces == old(db.spaces) && db.layouts == old(db.layouts)
      invariant db.biddings == old(db.biddings) && db.nextId == old(db.nextId)
    {
      var t := found[i];
      IdsOfStep(found, i);
      SettleIdsStep(t0, done, t, success, paymentId);
      db.SaveTransaction(Settled(t, success, paymentId));
      done := done + {t.id};
      i := i + 1;
    }
    assert found[..i] == found;
    SettleIdsDone(t0, orderId, success, paymentId);
  }

  function IdsOf(txs: seq<Transaction>): set<nat> {
    set t | t in txs :: t.id
  }

  lemma IdsOfStep(txs: seq<Transaction>, i: nat)
    requires i < |txs|
    ensures IdsOf(txs[..i + 1]) == IdsOf(txs[..i]) + {txs[i].id}
  {
    assert txs[..i + 1] == txs[..i] + [txs[i]];
  }

  /** The transactions whose ids are in `done` settled. */
  function SettleIds(txs: seq<Transaction>, done: set<nat>, success: bool, paymentId: string): (r: seq<Transaction>)
    ensures |r| == |txs|
  {
    seq(|txs|, k requires 0 <= k < |txs| => if txs[k].id in done then Settled(txs[k], success, paymentId) else txs[k])
  }

  /** Saving one more stored transaction settles its id. */
  lemma SettleIdsStep(t0: seq<Transaction>, done: set<nat>, t: Transaction, success: bool, paymentId: string)
    requires TxIdsDistinct(t0) && t in t0
    ensures exists k :: 0 <= k < |t0| && SettleIds(t0, done, success, paymentId)[k].id == t.id
    ensures ReplaceTx(SettleIds(t0, done, success, paymentId), Settled(t, success, paymentId))
      == SettleIds(t0, done + {t.id}, success, paymentId)
  {
    var j :| 0 <= j < |t0| && t0[j] == t;
    assert SettleIds(t0, done, success, paymentId)[j].id == t.id;
    forall k | 0 <= k < |t0| && t0[k].id == t.id
      ensures t0[k] == t
    {
    }
  }

  /** Settling the ids of the order's transactions settles the order. */
  lemma SettleIdsDone(t0: seq<Transaction>, orderId: string, success: bool, paymentId: string)
    requires TxIdsDistinct(t0)
    ensures SettleIds(t0, IdsOf(OfOrder(t0, orderId)), success, paymentId) == SettleOrder(t0, orderId, success, paymentId)
  {
    var found := OfOrder(t0, orderId);
    forall k | 0 <= k < |t0|
      ensures t0[k].id in IdsOf(found) <==> t0[k].orderId == orderId
    {
      if t0[k].id in IdsOf(found) {
        var t :| t in found && t.id == t0[k].id;
        var j :| 0 <= j < |t0| && t0[j] == t;
      }
      if t0[k].orderId == orderId {
        assert t0[k] in found;
      }
    }
  }

  /** Returns the spaces of every transaction to `available`. */
  method ReleaseAll(db: Db, found: seq<Transaction>, now: int)
    requires db.Valid()
    modifies db
    ensures db.Valid()
    ensures db.spaces == Released(old(db.spaces), SpacesOf(found), now)
    ensures db.transactions == old(db.transactions) && db.layouts == old(db.layouts)
    ensures db.biddings == old(db.biddings)
  {
    var i := 0;
    while i < |found|
      invariant 0 <= i <= |found|
      invariant db.Valid()
      invariant db.spaces == Released(old(db.spaces), SpacesOf(found[..i]), now)
      invariant db.transactions == old(db.transactions) && db.layouts == old(db.layouts)
      invariant db.biddings == old(db.biddings)
    {
      ReleaseSpaces(db, found[i].gridSpaces, now);
      ReleasedTwice(old(db.spaces), SpacesOf(found[..i]), found[i].gridSpaces, now);
      assert found[..i + 1][..i] == found[..i];
      i := i + 1;
    }
    assert found[..i] == found;
  }

  /** The inner loop over one transaction's spaces; a space no longer
    * stored is skipped. */
  method ReleaseSpaces(db: Db, ids: seq<nat>, now: int)
    requires db.Valid()
    modifies db
    ensures db.Valid()
    ensures db.spaces == Released(old(db.spaces), ids, now)
    ensures db.transactions == old(db.transactions) && db.layouts == old(db.layouts)
    ensures db.biddings == old(db.biddings)
  {
    var j := 0;
    while j < |ids|
      invariant 0 <= j <= |ids|
      invariant db.Valid()
      invariant db.spaces == Released(old(db.spaces), ids[..j], now)
      invariant db.transactions == old(db.transactions) && db.layouts == old(db.layouts)
      invariant db.biddings == old(db.biddings)
    {
      var id := ids[j];
      ReleasedTwice(old(db.spaces), ids[..j], [id], now);
      assert ids[..j + 1] == ids[..j] + [id];
      if id in db.spaces {
        db.SaveSpace(id, db.spaces[id].(status := Available), now);
      }
      j := j + 1;
    }
    assert ids[..j] == ids;
  }

  /** The purchase loop over the distinct stored spaces of the order.
    * A space whose transaction lookup throws is not saved, and `failed`
    * reports that one did. */
  method PurchaseAll(db: Db, found: seq<Transaction>, now: int) returns (bought: seq<nat>, failed: bool)
    requires db.Valid() && |found| > 0
    modifies db
    ensures db.Valid()
    ensures db.spaces == Purchases(old(db.spaces), found, SpacesOf(found), now)
    ensures bought == Found(Unique(SpacesOf(found)), old(db.spaces))
    ensures failed <==> LookupFails(old(db.spaces), found)
    ensures db.transactions == old(db.transactions) && db.layouts == old(db.layouts)
    ensures db.biddings == old(db.biddings)
  {
    bought := Found(Unique(SpacesOf(found)), db.spaces);
    failed := PurchaseEach(db, found, bought, now);
    PurchasesOver(old(db.spaces), found, bought, SpacesOf(found), now);
    AnyFailsSpec(found, bought);
  }

  /** The loop over the spaces to buy. */
  method PurchaseEach(db: Db, found: seq<Transaction>, ids: seq<nat>, now: int) returns (failed: bool)
    requires db.Valid() && |found| > 0 && forall k :: 0 <= k < |ids| ==> ids[k] in db.spaces
    modifies db
    ensures db.Valid()
    ensures db.spaces == Purchases(old(db.spaces), found, ids, now)
    ensures failed == AnyFails(found, ids)
    ensures db.transactions == old(db.transactions) && db.layouts == old(db.layouts)
    ensures db.biddings == old(db.biddings)
  {
    failed := false;
    ghost var done: seq<nat> := [];
    var i := 0;
    while i < |ids|
      invariant 0 <= i <= |ids| && done == ids[..i]
      invariant db.Valid()
      invariant db.spaces == Purchases(old(db.spaces), found, done, now)
      invariant failed == AnyFails(found, done)
      invariant db.transactions == old(db.transactions) && db.layouts == old(db.layouts)
      invariant db.biddings == old(db.biddings)
    {
      var id := ids[i];
      assert ids[..i + 1] == done + [id];
      var t := TxFor(found, id);
      AnyFailsStep(found, done, id);
      if t.Err? {
        PurchaseNone(old(db.spaces), found, done, id, now);
        failed := true;
      } else {
        PurchaseOne(old(db.spaces), found, done, id, now);
        db.SaveSpace(id, Bought(db.spaces[id], found[0].user, t.value, now), now);
      }
      done := done + [id];
      i := i + 1;
    }
    assert done == ids;
  }

  /** Some id of `ids` cannot find its transaction. */
  function AnyFails(txs: seq<Transaction>, ids: seq<nat>): bool
    decreases |ids|
  {
    |ids| > 0 && (AnyFails(txs, ids[..|ids| - 1]) || TxFor(txs, ids[|ids| - 1]).Err?)
  }

  lemma AnyFailsStep(txs: seq<Transaction>, ids: seq<nat>, id: nat)
    ensures AnyFails(txs, ids + [id]) == (AnyFails(txs, ids) || TxFor(txs, id).Err?)
  {
    assert (ids + [id])[..|ids|] == ids;
  }

  lemma {:induction false} AnyFailsSpec(txs: seq<Transaction>, ids: seq<nat>)
    ensures AnyFails(txs, ids) <==> exists id :: id in ids && TxFor(txs, id).Err?
    decreases |ids|
  {
    if |ids| > 0 {
      var n := |ids| - 1;
      AnyFailsSpec(txs, ids[..n]);
      assert ids == ids[..n] + [ids[n]];
      if exists id :: id in ids && TxFor(txs, id).Err? {
        var id :| id in ids && TxFor(txs, id).Err?;
        assert id in ids[..n] || id == ids[n];
      }
    }
  }

  lemma BoughtTwice(s: GridSpace, owner: nat, t: Option<Transaction>, now: int)
    ensures Bought(Bought(s, owner, t, now), owner, t, now) == Bought(s, owner, t, now)
  {
  }

  lemma PurchaseOne(spaces: map<nat, GridSpace>, txs: seq<Transaction>, ids: seq<nat>, id: nat, now: int)
    requires |txs| > 0 && id in spaces && TxFor(txs, id).Ok?
    ensures var p := Purchases(spaces, txs, ids, now);
      Purchases(spaces, txs, ids + [id], now)
      == p[id := Bought(p[id], txs[0].user, TxFor(txs, id).value, now).(updatedAt := now)]
  {
    var p := Purchases(spaces, txs, ids, now);
    var b := Bought(spaces[id], txs[0].user, TxFor(txs, id).value, now);
    BoughtTwice(spaces[id], txs[0].user, TxFor(txs, id).value, now);
    assert p[id] == spaces[id] || p[id] == b;
  }

  lemma PurchaseNone(spaces: map<nat, GridSpace>, txs: seq<Transaction>, ids: seq<nat>, id: nat, now: int)
    requires |txs| > 0 && TxFor(txs, id).Err?
    ensures Purchases(spaces, txs, ids + [id], now) == Purchases(spaces, txs, ids, now)
  {
  }

  /** Purchases depend only on which stored ids are listed. */
  lemma PurchasesOver(spaces: map<nat, GridSpace>, txs: seq<Transaction>, a: seq<nat>, b: seq<nat>, now: int)
    requires |txs| > 0
    requires forall id :: id in spaces ==> (id in a <==> id in b)
    ensures Purchases(spaces, txs, a, now) == Purchases(spaces, txs, b, now)
  {
  }

  /** What a verified payment does to one space: a space its order lists
    * is bought by the payer, unless its transaction lookup throws; any
    * other space is untouched. */
  lemma PurchasesSpec(spaces: map<nat, GridSpace>, txs: seq<Transaction>, now: int, id: nat)
    requires |txs| > 0 && id in spaces
    ensures var s := Purchases(spaces, txs, SpacesOf(txs), now)[id];
      (id in SpacesOf(txs) && TxFor(txs, id).Ok? ==>
         s.status == Purchased && s.owner == Some(txs[0].user) && s.updatedAt == now
         && (TxFor(txs, id).value.Some? ==> s.price == Some(TxFor(txs, id).value.value.amount))
         && s.(status := spaces[id].status, owner := spaces[id].owner, price := spaces[id].price,
               updatedAt := spaces[id].updatedAt) == spaces[id])
      && (id !in SpacesOf(txs) ==> s == spaces[id])
  {
  }

  /** Transactions that each list one space never make the lookup throw,
    * and a space its order lists takes the amount of the first
    * transaction for it. */
  lemma {:induction false} TxForSingles(txs: seq<Transaction>, id: nat)
    requires forall k :: 0 <= k < |txs| ==> |txs[k].gridSpaces| == 1
    ensures TxFor(txs, id).Ok?
    ensures (exists k :: 0 <= k < |txs| && txs[k].gridSpaces[0] == id) <==> TxFor(txs, id).value.Some?
    decreases |txs|
  {
    if |txs| > 0 && txs[0].gridSpaces[0] != id {
      TxForSingles(txs[1..], id);
      assert forall k :: 1 <= k < |txs| ==> txs[k] == txs[1..][k - 1];
      if exists k :: 0 <= k < |txs| && txs[k].gridSpaces[0] == id {
        var k :| 0 <= k < |txs| && txs[k].gridSpaces[0] == id;
        assert txs[1..][k - 1].gridSpaces[0] == id;
      }
    }
  }

  /** Paying an order opened over distinct spaces prices each space at
    * the unit amount of the order. */
  lemma OrderPaysUnitPrice(found: seq<nat>, user: nat, unit: real, orderId: string, receipt: string,
                           start: nat, now: int, k: nat)
    requires Distinct(found) && k < |found|
    ensures TxFor(OrderTxs(found, user, unit, orderId, receipt, start, now), found[k])
      == Ok(Some(OrderTx(start + k, user, found[k], unit, orderId, receipt, now)))
  {
    TxForPrefix(OrderTxs(found, user, unit, orderId, receipt, start, now), found[k], k);
  }

  lemma {:induction false} TxForPrefix(txs: seq<Transaction>, id: nat, k: nat)
    requires k < |txs| && |txs[k].gridSpaces| > 0 && txs[k].gridSpaces[0] == id
    requires forall j :: 0 <= j < k ==> |txs[j].gridSpaces| > 0 && txs[j].gridSpaces[0] != id
    ensures TxFor(txs, id) == Ok(Some(txs[k]))
    decreases k
  {
    if k > 0 {
      TxForPrefix(txs[1..], id, k - 1);
    }
  }

  // ---------------------------------------------------------------------
  // Reading transactions

  /** `Transaction.findById(id)`. */
  function FindTx(txs: seq<Transaction>, id: nat): (r: Option<Transaction>)
    ensures r.Some? ==> r.value in txs && r.value.id == id
    ensures r.None? ==> forall k :: 0 <= k < |txs| ==> txs[k].id != id
    decreases |txs|
  {
    if |txs| == 0 then None
    else if txs[0].id == id then Some(txs[0])
    else
      assert forall k :: 1 <= k < |txs| ==> txs[k] == txs[1..][k - 1];
      FindTx(txs[1..], id)
  }

  /** `getTransaction`: the buyer or an admin may read a transaction.  With
    * its user deleted, the populated user is `null` and reading its id
    * throws. */
  function GetTransaction(txs: seq<Transaction>, users: set<nat>, id: nat, user: nat, role: string)
    : (r: Outcome<Transaction>)
  {
    match FindTx(txs, id)
    case None => Fail(NotFound, "Transaction not found")
    case Some(t) =>
      if t.user !in users then Fail(ServerError, "Cannot read properties of null (reading '_id')")
      else if t.user != user && role != "admin" then Fail(Unauthorized, "Not authorized to access this transaction")
      else Ok(t)
  }

  /** Only the buyer of a stored transaction, or an admin, reads it; with
    * distinct ids it is the one stored under `id`. */
  lemma TransactionAccess(txs: seq<Transaction>, users: set<nat>, id: nat, user: nat, role: string, k: nat)
    requires TxIdsDistinct(txs) && k < |txs| && txs[k].id == id && txs[k].user in users
    ensures GetTransaction(txs, users, id, user, role).Ok? <==> txs[k].user == user || role == "admin"
    ensures GetTransaction(txs, users, id, user, role).Ok? ==> GetTransaction(txs, users, id, user, role).value == txs[k]
  {
    var t := FindTx(txs, id);
    var j :| 0 <= j < |txs| && txs[j] == t.value;
    assert txs[j].id == txs[k].id;
  }

  /** No transaction stored under `id` reads as not found. */
  lemma TransactionMissing(txs: seq<Transaction>, users: set<nat>, id: nat, user: nat, role: string)
    requires forall k :: 0 <= k < |txs| ==> txs[k].id != id
    ensures GetTransaction(txs, users, id, user, role) == Fail(NotFound, "Transaction not found")
  {
  }

  /** `Transaction.find({ user }).sort("-createdAt")`: the user's
    * transactions, newest first. */
  function History(txs: seq<Transaction>, user: nat): seq<Transaction> {
    Sorting.SortDesc(Mine(txs, user), CreatedKey)
  }

  function Mine(txs: seq<Transaction>, user: nat): (r: seq<Transaction>)
    ensures forall t :: t in r <==> t in txs && t.user == user
    decreases |txs|
  {
    if |txs| == 0 then []
    else
      var n := |txs| - 1;
      Mine(txs[..n], user) + (if txs[n].user == user then [txs[n]] else [])
  }

  function CreatedKey(t: Transaction): Sorting.Key {
    Sorting.Key(t.createdAt, 0)
  }

  /** The history is exactly the user's transactions, newest first. */
  lemma HistorySpec(txs: seq<Transaction>, user: nat)
    ensures forall t :: t in History(txs, user) <==> t in txs && t.user == user
    ensures forall i, j :: 0 <= i < j < |History(txs, user)| ==>
      History(txs, user)[i].createdAt >= History(txs, user)[j].createdAt
    ensures multiset(History(txs, user)) == multiset(Mine(txs, user))
  {
    Sorting.SortDescMembers(Mine(txs, user), CreatedKey);
    Sorting.SortDescSorted(Mine(txs, user), CreatedKey);
    Sorting.SortDescPerm(Mine(txs, user), CreatedKey);
  }
}
