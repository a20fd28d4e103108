/**
 * Copying the gateway's subscription invoices into the invoice collection:
 * the fetched invoices are taken in order of payment, those already stored
 * are skipped, and each new one is numbered and stored with its amounts in
 * rupees.  Fetching from the gateway is foreign: the model takes what it
 * returned, or `None` when the call failed.
 */
module InvoiceSync {
  import opened Wrappers
  import opened Api
  import Sorting
  import opened InvoiceNumbers

  /** A subscription invoice as the gateway returns it: amounts in paise,
    * dates in Unix seconds or `null`. */
  datatype Fetched = Fetched(
    id: string,
    subscriptionId: string,
    amount: int,
    amountPaid: int,
    paidAt: Option<int>,
    billingStart: Option<int>,
    billingEnd: Option<int>,
    createdAt: Option<int>,
    issuedAt: Option<int>,
    status: Option<string>)

  /** The body of a successful sync. */
  datatype Summary = Summary(saved: nat, skipped: nat, totalFetched: nat)

  /** Where a sync has got to: the stored invoices, the tallies, and whether
    * a write has failed, which ends the run. */
  datatype Progress = Progress(stored: seq<Invoice>, saved: nat, skipped: nat, failed: bool)

  const SyncFailed: string := "Failed to sync subscription invoices"
  const NoInvoices: string := "No invoices found for this subscription"
  const Paise: int := 100

  /** A paise amount in rupees, as `amount / 100`. */
  function Rupees(paise: int): (r: real)
    ensures r * Paise as real == paise as real
  {
    paise as real / Paise as real
  }

  /** The value a date field of the gateway's invoice is assigned. */
  function Input(v: Option<int>): DateInput {
    match v
    case Some(n) => Number(n)
    case None => Passed(Unset)
  }

  /** The sort key of `(a, b) => a.paid_at - b.paid_at`, where `null` counts
    * as 0, as a key for the descending sort. */
  function FetchedKey(x: Fetched): Sorting.Key {
    Sorting.Key(-x.paidAt.GetOr(0), 0)
  }

  /** The fetched invoices in the order they are processed: by payment
    * time, earliest first, keeping the gateway's order between equal times. */
  function Order(fetched: seq<Fetched>): (r: seq<Fetched>)
    ensures |r| == |fetched|
  {
    Sorting.SortDesc(fetched, FetchedKey)
  }

  /** The processing order is a rearrangement of the fetched invoices with
    * payment times never decreasing. */
  lemma OrderSpec(fetched: seq<Fetched>)
    ensures var r := Order(fetched);
      multiset(r) == multiset(fetched)
      && forall i, j :: 0 <= i < j < |r| ==> r[i].paidAt.GetOr(0) <= r[j].paidAt.GetOr(0)
  {
    Sorting.SortDescPerm(fetched, FetchedKey);
    Sorting.SortDescSorted(fetched, FetchedKey);
  }

  /** Whether an invoice with gateway id `id` is stored. */
  predicate Known(stored: seq<Invoice>, id: string) {
    exists k :: 0 <= k < |stored| && stored[k].invId == id
  }

  /** Whether some stored invoice already has `number`. */
  predicate NumberTaken(stored: seq<Invoice>, number: string) {
    exists k :: 0 <= k < |stored| && stored[k].number == number
  }

  /** The record `SubscriptionInvoice.create` is given for `x`. */
  function RecordOf(x: Fetched, n: Numbering, count: nat): (r: Invoice)
    ensures r.invId == x.id && r.subscriptionId == x.subscriptionId
    ensures r.amount * Paise as real == x.amount as real && r.amountPaid * Paise as real == x.amountPaid as real
    ensures r.number == n.number && r.sequence == n.sequence && r.subSequence == n.subSequence
    ensures r.financialYear == n.financialYear && r.count == count
  {
    Invoice(x.id, x.subscriptionId, n.number, n.sequence, n.subSequence, n.financialYear, count,
            Rupees(x.amount), Rupees(x.amountPaid),
            SetDate(Input(x.paidAt)), SetDate(Input(x.billingStart)), SetDate(Input(x.billingEnd)),
            SetDate(Input(x.createdAt)), SetDate(Input(x.issuedAt)), x.status)
  }

  /** The record stored for `x` when it is new. */
  function NewRecord(stored: seq<Invoice>, x: Fetched, calendar: int -> CalendarDate): Invoice {
    RecordOf(x, Generate(stored, x.subscriptionId, x.paidAt, calendar), NextCount(stored, x.subscriptionId))
  }

  /** Whether the collection accepts a record: its status is one of the
    * enum's and its number is not held yet (the unique index). */
  predicate Accepted(stored: seq<Invoice>, r: Invoice) {
    StatusValid(r.status) && !NumberTaken(stored, r.number)
  }

  /** One pass of the loop body. */
  function Step(p: Progress, x: Fetched, calendar: int -> CalendarDate): Progress {
    if p.failed then p
    else if Known(p.stored, x.id) then p.(skipped := p.skipped + 1)
    else
      var r := NewRecord(p.stored, x, calendar);
      if Accepted(p.stored, r) then p.(stored := p.stored + [r], saved := p.saved + 1)
      else p.(failed := true)
  }

  /** The loop over `items`, in order. */
  function Run(p: Progress, items: seq<Fetched>, calendar: int -> CalendarDate): Progress
    decreases |items|
  {
    if |items| == 0 then p else Step(Run(p, items[..|items| - 1], calendar), items[|items| - 1], calendar)
  }

  /** `syncSubscriptionInvoices`: the reply and the stored invoices after it.
    * A failed fetch or a failed write is a 500; the invoices stored before
    * a failed write stay stored. */
  function SyncOf(stored: seq<Invoice>, fetched: Option<seq<Fetched>>, calendar: int -> CalendarDate)
    : (r: (Outcome<Summary>, seq<Invoice>))
  {
    if fetched.None? then (Fail(ServerError, SyncFailed), stored)
    else
      var end := Run(Progress(stored, 0, 0, false), Order(fetched.value), calendar);
      if end.failed then (Fail(ServerError, SyncFailed), end.stored)
      else (Ok(Summary(end.saved, end.skipped, |fetched.value|)), end.stored)
  }

  /** The loop keeps what was stored, in place, adds one record per saved
    * invoice, and, when no write failed, counts every item once. */
  lemma {:induction false} RunTally(p: Progress, items: seq<Fetched>, calendar: int -> CalendarDate)
    ensures var q := Run(p, items, calendar);
      |p.stored| <= |q.stored| && q.stored[..|p.stored|] == p.stored
      && p.saved <= q.saved && |q.stored| - |p.stored| == q.saved - p.saved
      && (!q.failed ==> !p.failed && q.saved + q.skipped == p.saved + p.skipped + |items|)
    decreases |items|
  {
    if |items| > 0 {
      RunTally(p, items[..|items| - 1], calendar);
      var m := Run(p, items[..|items| - 1], calendar);
      var q := Run(p, items, calendar);
      if !m.failed && !Known(m.stored, items[|items| - 1].id)
         && Accepted(m.stored, NewRecord(m.stored, items[|items| - 1], calendar)) {
        assert q.stored[..|m.stored|] == m.stored;
        assert q.stored[..|p.stored|] == m.stored[..|p.stored|];
      }
    }
  }

  /** After a run in which no write failed, every item is stored. */
  lemma {:induction false} RunKnows(p: Progress, items: seq<Fetched>, calendar: int -> CalendarDate)
    requires !Run(p, items, calendar).failed
    ensures forall x :: x in items ==> Known(Run(p, items, calendar).stored, x.id)
    decreases |items|
  {
    if |items| > 0 {
      var init := items[..|items| - 1];
      var last := items[|items| - 1];
      var m := Run(p, init, calendar);
      var q := Run(p, items, calendar);
      RunKnows(p, init, calendar);
      RunTally(m, [last], calendar);
      assert Run(m, [last], calendar) == q by {
        assert [last][..0] == [];
      }
      forall x | x in items
        ensures Known(q.stored, x.id)
      {
        if x in init {
          var k :| 0 <= k < |m.stored| && m.stored[k].invId == x.id;
          assert q.stored[k] == m.stored[k];
        } else if !Known(m.stored, x.id) {
          assert q.stored[|m.stored|].invId == x.id;
        } else {
          var k :| 0 <= k < |m.stored| && m.stored[k].invId == x.id;
          assert q.stored[k] == m.stored[k];
        }
      }
    }
  }

  /** Items that are all stored already are all skipped. */
  lemma {:induction false} RunAllKnown(p: Progress, items: seq<Fetched>, calendar: int -> CalendarDate)
    requires !p.failed && forall x :: x in items ==> Known(p.stored, x.id)
    ensures Run(p, items, calendar) == p.(skipped := p.skipped + |items|)
    decreases |items|
  {
    if |items| > 0 {
      RunAllKnown(p, items[..|items| - 1], calendar);
      assert items[|items| - 1] in items;
    }
  }

  /** The loop over one more item is one more step. */
  lemma RunNext(p: Progress, items: seq<Fetched>, i: nat, calendar: int -> CalendarDate)
    requires i < |items|
    ensures Run(p, items[..i + 1], calendar) == Step(Run(p, items[..i], calendar), items[i], calendar)
  {
    assert items[..i + 1][..i] == items[..i];
  }

  /** Once a write has failed, the remaining items change nothing. */
  lemma {:induction false} RunFailedStays(p: Progress, items: seq<Fetched>, i: nat, calendar: int -> CalendarDate)
    requires i <= |items| && Run(p, items[..i], calendar).failed
    ensures Run(p, items, calendar) == Run(p, items[..i], calendar)
    decreases |items| - i
  {
    if i < |items| {
      assert items[..i + 1][..i] == items[..i];
      RunFailedStays(p, items, i + 1, calendar);
    } else {
      assert items[..i] == items;
    }
  }

  /** A successful sync accounts for every fetched invoice, as saved or as
    * skipped, and stores one record per saved invoice after the old ones. */
  lemma SyncTally(stored: seq<Invoice>, fetched: seq<Fetched>, calendar: int -> CalendarDate)
    ensures var (r, after) := SyncOf(stored, Some(fetched), calendar);
      |stored| <= |after| && after[..|stored|] == stored
      && (r.Ok? ==> r.value.saved + r.value.skipped == r.value.totalFetched == |fetched|
                    && |after| == |stored| + r.value.saved)
      && (r.Err? ==> r == Fail(ServerError, SyncFailed))
  {
    RunTally(Progress(stored, 0, 0, false), Order(fetched), calendar);
  }

  /** Syncing the same invoices again saves nothing and changes nothing. */
  lemma SyncAgain(stored: seq<Invoice>, fetched: seq<Fetched>, calendar: int -> CalendarDate)
    requires SyncOf(stored, Some(fetched), calendar).0.Ok?
    ensures var after := SyncOf(stored, Some(fetched), calendar).1;
      SyncOf(after, Some(fetched), calendar) == (Ok(Summary(0, |fetched|, |fetched|)), after)
  {
    var items := Order(fetched);
    var after := SyncOf(stored, Some(fetched), calendar).1;
    RunKnows(Progress(stored, 0, 0, false), items, calendar);
    Sorting.SortDescMembers(fetched, FetchedKey);
    RunAllKnown(Progress(after, 0, 0, false), items, calendar);
  }

  /** No gateway id is stored twice. */
  predicate IdsUnique(stored: seq<Invoice>) {
    forall i, j :: 0 <= i < j < |stored| ==> stored[i].invId != stored[j].invId
  }

  /** No invoice number is stored twice. */
  predicate NumbersUnique(stored: seq<Invoice>) {
    forall i, j :: 0 <= i < j < |stored| ==> stored[i].number != stored[j].number
  }

  /** A step keeps gateway ids and invoice numbers unique. */
  lemma StepKeepsUnique(p: Progress, x: Fetched, calendar: int -> CalendarDate)
    requires IdsUnique(p.stored) && NumbersUnique(p.stored)
    ensures var q := Step(p, x, calendar); IdsUnique(q.stored) && NumbersUnique(q.stored)
  {
    var q := Step(p, x, calendar);
    if !p.failed && !Known(p.stored, x.id) && Accepted(p.stored, NewRecord(p.stored, x, calendar)) {
      var r := NewRecord(p.stored, x, calendar);
      forall i, j | 0 <= i < j < |q.stored|
        ensures q.stored[i].invId != q.stored[j].invId && q.stored[i].number != q.stored[j].number
      {
        if j == |p.stored| {
          assert q.stored[i] == p.stored[i];
        }
      }
    }
  }

  /** The loop keeps gateway ids and invoice numbers unique. */
  lemma {:induction false} RunKeepsUnique(p: Progress, items: seq<Fetched>, calendar: int -> CalendarDate)
    requires IdsUnique(p.stored) && NumbersUnique(p.stored)
    ensures forall i :: 0 <= i <= |items| ==>
      var q := Run(p, items[..i], calendar); IdsUnique(q.stored) && NumbersUnique(q.stored)
    decreases |items|
  {
    if |items| > 0 {
      var init := items[..|items| - 1];
      RunKeepsUnique(p, init, calendar);
      forall i | 0 <= i <= |items|
        ensures var q := Run(p, items[..i], calendar); IdsUnique(q.stored) && NumbersUnique(q.stored)
      {
        if i < |items| {
          assert items[..i] == init[..i];
        } else {
          assert items[..i] == items && items[..i - 1] == init[..i - 1];
          StepKeepsUnique(Run(p, init, calendar), items[i - 1], calendar);
          assert init[..i - 1] == init;
        }
      }
    }
  }

  /** `getInvoiceBySubscriptionId`: the subscription's invoices by payment
    * date, earliest first, or 404 when it has none. */
  function InvoicesOf(stored: seq<Invoice>, sid: string): (r: Outcome<seq<Invoice>>)
    ensures r.Err? <==> forall k :: 0 <= k < |stored| ==> stored[k].subscriptionId != sid
    ensures r.Err? ==> r == Fail(NotFound, NoInvoices)
  {
    OnlyEmpty(stored, sid);
    var list := ByPaidAt(Only(stored, sid));
    if |list| == 0 then Fail(NotFound, NoInvoices) else Ok(list)
  }

  /** A subscription has no invoices exactly when none is stored under it. */
  lemma OnlyEmpty(stored: seq<Invoice>, sid: string)
    ensures |Only(stored, sid)| == 0 <==> forall k :: 0 <= k < |stored| ==> stored[k].subscriptionId != sid
  {
    var only := Only(stored, sid);
    if |only| > 0 {
      assert only[0] in only;
    }
    forall k | 0 <= k < |stored| && stored[k].subscriptionId == sid
      ensures |only| > 0
    {
      assert stored[k] in stored;
      assert stored[k] in only;
    }
  }

  /** The listed invoices are exactly the subscription's, each once, in
    * order of payment. */
  lemma InvoicesOfSpec(stored: seq<Invoice>, sid: string)
    requires InvoicesOf(stored, sid).Ok?
    ensures var list := InvoicesOf(stored, sid).value;
      multiset(list) == multiset(Only(stored, sid))
      && (forall x :: x in list <==> x in stored && x.subscriptionId == sid)
      && forall i, j :: 0 <= i < j < |list| ==> NotLater(list[i].paidAt, list[j].paidAt)
  {
    var list := InvoicesOf(stored, sid).value;
    Sorting.SortDescPerm(Only(stored, sid), PaidKey);
    Sorting.SortDescMembers(Only(stored, sid), PaidKey);
    Sorting.SortDescSorted(Only(stored, sid), PaidKey);
    forall i, j | 0 <= i < j < |list|
      ensures NotLater(list[i].paidAt, list[j].paidAt)
    {
      PaidKeyOrder(list[i], list[j]);
    }
  }

  /** The subscription invoice collection. */
  class InvoiceStore {
    var invoices: seq<Invoice>

    ghost predicate Valid()
      reads this
    {
      IdsUnique(invoices) && NumbersUnique(invoices)
    }

    constructor ()
      ensures Valid() && invoices == []
    {
      invoices := [];
    }

    /** `syncSubscriptionInvoices` over what the gateway returned. */
    method Sync(fetched: Option<seq<Fetched>>, calendar: int -> CalendarDate) returns (r: Outcome<Summary>)
      requires Valid()
      modifies this
      ensures Valid()
      ensures (r, invoices) == SyncOf(old(invoices), fetched, calendar)
    {
      if fetched.None? {
        return Fail(ServerError, SyncFailed);
      }
      var items := Order(fetched.value);
      ghost var start := Progress(invoices, 0, 0, false);
      RunKeepsUnique(start, items, calendar);
      var saved: nat := 0;
      var skipped: nat := 0;
      var i := 0;
      while i < |items|
        invariant 0 <= i <= |items|
        invariant Run(start, items[..i], calendar) == Progress(invoices, saved, skipped, false)
      {
        var x := items[i];
        ghost var before := Progress(invoices, saved, skipped, false);
        RunNext(start, items, i, calendar);
        if Known(invoices, x.id) {
          skipped := skipped + 1;
        } else {
          var numbering := Generate(invoices, x.subscriptionId, x.paidAt, calendar);
          var count := NextCount(invoices, x.subscriptionId);
          var record := RecordOf(x, numbering, count);
          if !Accepted(invoices, record) {
            RunFailedStays(start, items, i + 1, calendar);
            return Fail(ServerError, SyncFailed);
          }
          invoices := invoices + [record];
          saved := saved + 1;
        }
        i := i + 1;
      }
      assert items[..i] == items;
      r := Ok(Summary(saved, skipped, |fetched.value|));
    }
  }
}
