/**
 * The brand invoice collection: copies of the paid brand blocks, merged in
 * by order number so that an invoice, once there, is never replaced; the
 * invoice listing's query; and editing one invoice.
 */
module BrandInvoices {
  import opened Wrappers
  import opened Api
  import opened BrandBlocks
  import BrandController
  import Queries
  import Text

  /** A stored brand invoice: its own id, the order number it is keyed on,
    * and the block fields copied into it. */
  datatype BrandInvoice = BrandInvoice(id: nat, orderNum: int, copy: BrandBlock)

  /** Where a merge has got to; `failed` once a paid block without an order
    * number stopped it (the merge key cannot be missing). */
  datatype Merge = Merge(invoices: seq<BrandInvoice>, nextId: nat, failed: bool)

  const NotFoundMessage: string := "Invoice not found"
  const MergeFailed: string := "Paid block without an order number"

  /** Whether an invoice with order number `n` is stored. */
  predicate HasOrder(invoices: seq<BrandInvoice>, n: int) {
    exists k :: 0 <= k < |invoices| && invoices[k].orderNum == n
  }

  /** One block through `$match` and `$merge`: unpaid blocks are not
    * copied; a paid one is inserted unless its order number is stored. */
  function MergeOne(m: Merge, b: BrandBlock): Merge {
    if m.failed || b.paymentStatus != Success then m
    else if b.orderNum.None? then m.(failed := true)
    else if HasOrder(m.invoices, b.orderNum.value) then m
    else Merge(m.invoices + [BrandInvoice(m.nextId, b.orderNum.value, b)], m.nextId + 1, false)
  }

  /** The merge of `blocks`, in order. */
  function MergeAll(m: Merge, blocks: seq<BrandBlock>): Merge
    decreases |blocks|
  {
    if |blocks| == 0 then m else MergeOne(MergeAll(m, blocks[..|blocks| - 1]), blocks[|blocks| - 1])
  }

  /** `syncBrandInvoice`: the outcome and the invoices afterwards. */
  function SyncOf(invoices: seq<BrandInvoice>, nextId: nat, blocks: seq<BrandBlock>)
    : (r: (Outcome<()>, seq<BrandInvoice>, nat))
  {
    var end := MergeAll(Merge(invoices, nextId, false), blocks);
    (if end.failed then Fail(ServerError, MergeFailed) else Ok(()), end.invoices, end.nextId)
  }

  /** No order number is stored twice. */
  predicate OrdersUnique(invoices: seq<BrandInvoice>) {
    forall i, j :: 0 <= i < j < |invoices| ==> invoices[i].orderNum != invoices[j].orderNum
  }

  /** Ids are unique and below the next one. */
  predicate IdsBelow(invoices: seq<BrandInvoice>, nextId: nat) {
    forall k :: 0 <= k < |invoices| ==> invoices[k].id < nextId
  }

  predicate IdsUnique(invoices: seq<BrandInvoice>) {
    forall i, j :: 0 <= i < j < |invoices| ==> invoices[i].id != invoices[j].id
  }

  /** The merge keeps every stored invoice as it was, in place; what it
    * adds are copies of paid blocks keyed on their own order numbers. */
  lemma {:induction false} MergeKeeps(m: Merge, blocks: seq<BrandBlock>)
    ensures var e := MergeAll(m, blocks);
      |m.invoices| <= |e.invoices| && e.invoices[..|m.invoices|] == m.invoices
      && m.nextId <= e.nextId
      && (m.failed ==> e == m)
      && forall k :: |m.invoices| <= k < |e.invoices| ==>
           e.invoices[k].copy in blocks && e.invoices[k].copy.paymentStatus == Success
           && e.invoices[k].copy.orderNum == Some(e.invoices[k].orderNum)
           && m.nextId <= e.invoices[k].id < e.nextId
    decreases |blocks|
  {
    if |blocks| > 0 {
      var init := blocks[..|blocks| - 1];
      var b := blocks[|blocks| - 1];
      MergeKeeps(m, init);
      var mid := MergeAll(m, init);
      var e := MergeAll(m, blocks);
      if e.invoices != mid.invoices {
        assert e.invoices[..|mid.invoices|] == mid.invoices;
        assert e.invoices[..|m.invoices|] == mid.invoices[..|m.invoices|];
      }
      forall k | |m.invoices| <= k < |e.invoices|
        ensures e.invoices[k].copy in blocks
      {
        if k < |mid.invoices| {
          assert e.invoices[k] == mid.invoices[k];
          assert e.invoices[k].copy in init;
        } else {
          assert e.invoices[k].copy == b;
        }
      }
    }
  }

  /** The merge keeps order numbers and ids unique. */
  lemma {:induction false} MergeUnique(m: Merge, blocks: seq<BrandBlock>)
    requires OrdersUnique(m.invoices) && IdsUnique(m.invoices) && IdsBelow(m.invoices, m.nextId)
    ensures var e := MergeAll(m, blocks);
      OrdersUnique(e.invoices) && IdsUnique(e.invoices) && IdsBelow(e.invoices, e.nextId)
    decreases |blocks|
  {
    if |blocks| > 0 {
      var init := blocks[..|blocks| - 1];
      MergeUnique(m, init);
      var mid := MergeAll(m, init);
      var e := MergeAll(m, blocks);
      if e.invoices != mid.invoices {
        forall i, j | 0 <= i < j < |e.invoices|
          ensures e.invoices[i].orderNum != e.invoices[j].orderNum && e.invoices[i].id != e.invoices[j].id
        {
          if j == |mid.invoices| {
            assert e.invoices[i] == mid.invoices[i];
          }
        }
      }
    }
  }

  /** After a merge that did not fail, every paid block's order number is
    * stored. */
  lemma {:induction false} MergePresent(m: Merge, blocks: seq<BrandBlock>)
    requires !MergeAll(m, blocks).failed
    ensures forall b :: b in blocks && b.paymentStatus == Success ==>
      b.orderNum.Some? && HasOrder(MergeAll(m, blocks).invoices, b.orderNum.value)
    decreases |blocks|
  {
    if |blocks| > 0 {
      var init := blocks[..|blocks| - 1];
      var mid := MergeAll(m, init);
      var e := MergeAll(m, blocks);
      MergePresent(m, init);
      MergeKeeps(mid, [blocks[|blocks| - 1]]);
      assert MergeAll(mid, [blocks[|blocks| - 1]]) == e by {
        assert [blocks[|blocks| - 1]][..0] == [];
      }
      forall b | b in blocks && b.paymentStatus == Success
        ensures b.orderNum.Some? && HasOrder(e.invoices, b.orderNum.value)
      {
        if b in init {
          var k :| 0 <= k < |mid.invoices| && mid.invoices[k].orderNum == b.orderNum.value;
          assert e.invoices[k] == mid.invoices[k];
        } else if !HasOrder(mid.invoices, b.orderNum.value) {
          assert e.invoices[|mid.invoices|].orderNum == b.orderNum.value;
        } else {
          var k :| 0 <= k < |mid.invoices| && mid.invoices[k].orderNum == b.orderNum.value;
          assert e.invoices[k] == mid.invoices[k];
        }
      }
    }
  }

  /** Blocks whose order numbers are all stored, or that are unpaid, change
    * nothing. */
  lemma {:induction false} MergeNothingNew(m: Merge, blocks: seq<BrandBlock>)
    requires !m.failed
    requires forall b :: b in blocks && b.paymentStatus == Success ==>
      b.orderNum.Some? && HasOrder(m.invoices, b.orderNum.value)
    ensures MergeAll(m, blocks) == m
    decreases |blocks|
  {
    if |blocks| > 0 {
      MergeNothingNew(m, blocks[..|blocks| - 1]);
      assert blocks[|blocks| - 1] in blocks;
    }
  }

  /** Repeating the sync is a no-op. */
  lemma SyncTwice(invoices: seq<BrandInvoice>, nextId: nat, blocks: seq<BrandBlock>)
    requires SyncOf(invoices, nextId, blocks).0.Ok?
    ensures var (_, after, next) := SyncOf(invoices, nextId, blocks);
      SyncOf(after, next, blocks) == (Ok(()), after, next)
  {
    var e := MergeAll(Merge(invoices, nextId, false), blocks);
    MergePresent(Merge(invoices, nextId, false), blocks);
    MergeNothingNew(e, blocks);
  }

  /** The fields of an invoice the listing filter reads. */
  function RowOf(inv: BrandInvoice): Queries.Row {
    BrandController.RowOf(inv.copy)
  }

  /** The filter of `getAllBrandInvoice`: the category is always a list of
    * trimmed pieces, and the payment status is `"success"` unless the
    * query names another. */
  function InvoiceFilter(q: Queries.ListingParams): Queries.Filter {
    Queries.Filter(Queries.Given(q.city), Queries.Given(q.state), Queries.Given(q.country),
                   Queries.CategoryListOf(q.category), Queries.Given(q.search),
                   Some(if q.paymentStatus.Some? then q.paymentStatus.value else "success"))
  }

  /** The invoice listing selects what the public block listing selects,
    * restricted to one payment status, paid by default. */
  lemma InvoiceFilterSpec(q: Queries.ListingParams, r: Queries.Row, re: Queries.Matcher)
    ensures Queries.Selects(InvoiceFilter(q), r, re) <==>
      Queries.Selects(Queries.BlocksFilter(q), r, re)
      && r.paymentStatus == (if q.paymentStatus.Some? then q.paymentStatus.value else "success")
  {
    Queries.CategoryListAgrees(q.category, r.category);
  }

  /** The query `getAllBrandInvoice` runs: filter, one sort key, and skip
    * and limit (`None` for NaN). */
  datatype InvoiceQuery = InvoiceQuery(
    filter: Queries.Filter, sort: (string, Queries.Direction), skip: Option<int>, limit: Option<int>)

  function ListInvoices(q: Queries.ListingParams): (r: InvoiceQuery)
    ensures r.sort.0 == Queries.SortField(q.sort)
    ensures r.sort.1 == Queries.Descending <==> q.order == Some("desc")
  {
    var window := Queries.PanelWindow(q);
    InvoiceQuery(InvoiceFilter(q), (Queries.SortField(q.sort), if q.order == Some("desc") then Queries.Descending
                                                                 else Queries.Ascending),
                 window.0, window.1)
  }

  /** Written-out page and limit numbers give skip `(page-1)*limit` and
    * the limit, whatever their sign. */
  lemma ListWindow(q: Queries.ListingParams, page: int, limit: int)
    requires q.page == Some(Text.IntToString(page)) && q.limit == Some(Text.IntToString(limit))
    ensures ListInvoices(q).skip == Some((page - 1) * limit) && ListInvoices(q).limit == Some(limit)
  {
    Queries.WindowsCompared(q, page, limit);
    assert ListInvoices(q).skip == Queries.PanelWindow(q).0;
    assert ListInvoices(q).limit == Queries.PanelWindow(q).1;
  }

  /** The first position holding id `id`, if any. */
  function FindId(invoices: seq<BrandInvoice>, id: nat): (r: Option<nat>)
    ensures r.None? <==> forall k :: 0 <= k < |invoices| ==> invoices[k].id != id
    ensures r.Some? ==> r.value < |invoices| && invoices[r.value].id == id
  {
    if |invoices| == 0 then None
    else if invoices[0].id == id then Some(0)
    else match FindId(invoices[1..], id)
      case None => None
      case Some(k) => Some(k + 1)
  }

  /** The body of `updateBrandInvoice`: a value for each path of the
    * invoice schema that is also a copied block path, when the body
    * carries it.  Strict mode drops the block paths the invoice schema
    * does not declare (`w`, `h`, `x`, `y`, `xEnd`, `yEnd`, `createdAt`,
    * `_id`), so no body can change those. */
  datatype InvoicePatch = InvoicePatch(
    orderNum: Option<int>, brandName: Option<string>, description: Option<string>, details: Option<string>,
    category: Option<string>, location: Option<Location>, logoUrl: Option<string>, owner: Option<nat>,
    orderId: Option<string>, paymentId: Option<string>, paymentStatus: Option<PaymentStatus>,
    totalAmount: Option<real>, totalBlocks: Option<int>)

  const DuplicateKey: string := "E11000 duplicate key error"

  /** `$set` of the patch on the copied fields. */
  function PatchCopy(c: BrandBlock, p: InvoicePatch): BrandBlock {
    c.(orderNum := if p.orderNum.Some? then p.orderNum else c.orderNum,
       brandName := p.brandName.GetOr(c.brandName), description := p.description.GetOr(c.description),
       details := p.details.GetOr(c.details), category := p.category.GetOr(c.category),
       location := p.location.GetOr(c.location), logoUrl := p.logoUrl.GetOr(c.logoUrl),
       owner := if p.owner.Some? then p.owner else c.owner, orderId := p.orderId.GetOr(c.orderId),
       paymentId := p.paymentId.GetOr(c.paymentId), paymentStatus := p.paymentStatus.GetOr(c.paymentStatus),
       totalAmount := p.totalAmount.GetOr(c.totalAmount), totalBlocks := p.totalBlocks.GetOr(c.totalBlocks))
  }

  /** `$set` of the patch on a stored invoice. */
  function Patch(inv: BrandInvoice, p: InvoicePatch): BrandInvoice {
    inv.(orderNum := p.orderNum.GetOr(inv.orderNum), copy := PatchCopy(inv.copy, p))
  }

  /** A patched invoice takes every value the body gives and keeps every
    * path it does not give; its id and the paths the invoice schema does
    * not declare never change; and setting the same values again changes
    * nothing. */
  lemma PatchSpec(inv: BrandInvoice, p: InvoicePatch)
    ensures var r := Patch(inv, p);
      r.id == inv.id
      && (p.orderNum.Some? ==> r.orderNum == p.orderNum.value && r.copy.orderNum == p.orderNum)
      && (p.orderNum.None? ==> r.orderNum == inv.orderNum && r.copy.orderNum == inv.copy.orderNum)
      && (p.brandName.Some? ==> r.copy.brandName == p.brandName.value)
      && (p.paymentStatus.Some? ==> r.copy.paymentStatus == p.paymentStatus.value)
      && (p.totalAmount.Some? ==> r.copy.totalAmount == p.totalAmount.value)
      && (p == InvoicePatch(None, None, None, None, None, None, None, None, None, None, None, None, None) ==> r == inv)
      && r.copy.(orderNum := inv.copy.orderNum, brandName := inv.copy.brandName,
                 description := inv.copy.description, details := inv.copy.details, category := inv.copy.category,
                 location := inv.copy.location, logoUrl := inv.copy.logoUrl, owner := inv.copy.owner,
                 orderId := inv.copy.orderId, paymentId := inv.copy.paymentId,
                 paymentStatus := inv.copy.paymentStatus, totalAmount := inv.copy.totalAmount,
                 totalBlocks := inv.copy.totalBlocks) == inv.copy
      && Patch(r, p) == r
  {
  }

  /** Whether an invoice other than the one with id `id` holds order number `n`. */
  predicate HeldByOther(invoices: seq<BrandInvoice>, id: nat, n: int) {
    exists k :: 0 <= k < |invoices| && invoices[k].id != id && invoices[k].orderNum == n
  }

  /** `updateBrandInvoice`: 404 for an unknown id; a new order number that
    * another invoice holds breaks the unique index `$merge` relies on and
    * fails with nothing changed; otherwise the invoice is patched in its
    * place. */
  function UpdateOf(invoices: seq<BrandInvoice>, id: nat, p: InvoicePatch)
    : (r: (Outcome<BrandInvoice>, seq<BrandInvoice>))
    ensures (forall k :: 0 <= k < |invoices| ==> invoices[k].id != id) ==> r == (Fail(NotFound, NotFoundMessage), invoices)
    ensures ((exists k :: 0 <= k < |invoices| && invoices[k].id == id) && p.orderNum.Some?
             && HeldByOther(invoices, id, p.orderNum.value))
            ==> r == (Fail(ServerError, DuplicateKey), invoices)
    ensures r.0.Ok? <==> (exists k :: 0 <= k < |invoices| && invoices[k].id == id)
                         && !(p.orderNum.Some? && HeldByOther(invoices, id, p.orderNum.value))
    ensures r.0.Ok? ==> r.0.value.id == id && |r.1| == |invoices|
                        && forall k :: 0 <= k < |r.1| ==>
                             r.1[k] == if invoices[k].id == id then Patch(invoices[k], p) else invoices[k]
  {
    match FindId(invoices, id)
    case None => (Fail(NotFound, NotFoundMessage), invoices)
    case Some(k) =>
      if p.orderNum.Some? && HeldByOther(invoices, id, p.orderNum.value) then (Fail(ServerError, DuplicateKey), invoices)
      else
        var updated := seq(|invoices|, i requires 0 <= i < |invoices| =>
                             if invoices[i].id == id then Patch(invoices[i], p) else invoices[i]);
        (Ok(Patch(invoices[k], p)), updated)
  }

  /** An edit keeps ids and order numbers unique, changes no id, and
    * changes no order number unless the body gives one. */
  lemma UpdateKeepsKeys(invoices: seq<BrandInvoice>, id: nat, p: InvoicePatch)
    requires OrdersUnique(invoices) && IdsUnique(invoices)
    ensures var after := UpdateOf(invoices, id, p).1;
      OrdersUnique(after) && IdsUnique(after)
      && (forall k :: 0 <= k < |after| ==> after[k].id == invoices[k].id)
      && (p.orderNum.None? ==> forall k :: 0 <= k < |after| ==> after[k].orderNum == invoices[k].orderNum)
  {
    var r := UpdateOf(invoices, id, p);
    var after := r.1;
    if r.0.Ok? {
      forall i, j | 0 <= i < j < |after|
        ensures after[i].orderNum != after[j].orderNum
      {
        if p.orderNum.Some? && invoices[i].id == id {
          assert !(invoices[j].id != id && invoices[j].orderNum == p.orderNum.value);
        }
        if p.orderNum.Some? && invoices[j].id == id {
          assert !(invoices[i].id != id && invoices[i].orderNum == p.orderNum.value);
        }
      }
    }
  }

  /** Sending the same edit twice stores what sending it once stores. */
  lemma UpdateIdempotent(invoices: seq<BrandInvoice>, id: nat, p: InvoicePatch, r0: (Outcome<BrandInvoice>, seq<BrandInvoice>))
    requires r0 == UpdateOf(invoices, id, p) && r0.0.Ok?
    ensures UpdateOf(r0.1, id, p).0.Ok? && UpdateOf(r0.1, id, p).1 == r0.1
  {
    var after := r0.1;
    forall k | 0 <= k < |invoices| && invoices[k].id == id
      ensures Patch(after[k], p) == after[k]
    {
      PatchSpec(invoices[k], p);
    }
    assert after[FindId(invoices, id).value].id == id;
    if p.orderNum.Some? {
      assert !HeldByOther(after, id, p.orderNum.value) by {
        forall k | 0 <= k < |after| && after[k].id != id
          ensures after[k].orderNum != p.orderNum.value
        {
          assert after[k] == invoices[k];
        }
      }
    }
    var again := UpdateOf(after, id, p).1;
    forall k | 0 <= k < |after|
      ensures again[k] == after[k]
    {
    }
  }

  /** The edit of the input: a body naming an order number that another
    * invoice holds is refused with nothing changed. */
  lemma DuplicateOrderRefused(invoices: seq<BrandInvoice>, i: nat, j: nat, p: InvoicePatch)
    requires i < |invoices| && j < |invoices| && invoices[i].id != invoices[j].id
    requires p.orderNum == Some(invoices[j].orderNum)
    ensures UpdateOf(invoices, invoices[i].id, p) == (Fail(ServerError, DuplicateKey), invoices)
  {
    assert HeldByOther(invoices, invoices[i].id, invoices[j].orderNum);
  }

  /** The brand invoice collection. */
  class BrandInvoiceStore {
    var invoices: seq<BrandInvoice>
    var nextId: nat

    ghost predicate Valid()
      reads this
    {
      OrdersUnique(invoices) && IdsUnique(invoices) && IdsBelow(invoices, nextId)
    }

    constructor ()
      ensures Valid() && invoices == []
    {
      invoices := [];
      nextId := 0;
    }

    /** `syncBrandInvoice` over the brand blocks. */
    method Sync(blocks: seq<BrandBlock>) returns (r: Outcome<()>)
      requires Valid()
      modifies this
      ensures Valid()
      ensures (r, invoices, nextId) == SyncOf(old(invoices), old(nextId), blocks)
    {
      ghost var start := Merge(invoices, nextId, false);
      MergeUnique(start, blocks);
      var i := 0;
      while i < |blocks|
        invariant 0 <= i <= |blocks|
        invariant MergeAll(start, blocks[..i]) == Merge(invoices, nextId, false)
      {
        var b := blocks[i];
        assert blocks[..i + 1][..i] == blocks[..i];
        if b.paymentStatus == Success {
          if b.orderNum.None? {
            MergeFailedStays(start, blocks, i + 1);
            return Fail(ServerError, MergeFailed);
          }
          if !HasOrder(invoices, b.orderNum.value) {
            invoices := invoices + [BrandInvoice(nextId, b.orderNum.value, b)];
            nextId := nextId + 1;
          }
        }
        i := i + 1;
      }
      assert blocks[..i] == blocks;
      r := Ok(());
    }

    /** `updateBrandInvoice` on the collection. */
    method Update(id: nat, p: InvoicePatch) returns (r: Outcome<BrandInvoice>)
      requires Valid()
      modifies this
      ensures Valid()
      ensures (r, invoices) == UpdateOf(old(invoices), id, p) && nextId == old(nextId)
    {
      var res := UpdateOf(invoices, id, p);
      UpdateKeepsKeys(invoices, id, p);
      r, invoices := res.0, res.1;
    }
  }

  /** Once the merge has failed, the remaining blocks change nothing. */
  lemma {:induction false} MergeFailedStays(m: Merge, blocks: seq<BrandBlock>, i: nat)
    requires i <= |blocks| && MergeAll(m, blocks[..i]).failed
    ensures MergeAll(m, blocks) == MergeAll(m, blocks[..i])
    decreases |blocks| - i
  {
    if i < |blocks| {
      assert blocks[..i + 1][..i] == blocks[..i];
      MergeFailedStays(m, blocks, i + 1);
    } else {
      assert blocks[..i] == blocks;
    }
  }
}
