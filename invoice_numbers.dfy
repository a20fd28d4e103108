/**
 * Subscription invoices as stored, and how a new one is numbered: the
 * Indian financial year (April to March) of its payment date, the running
 * sequence of that year, the ".n" sub-numbers of repeat invoices of one
 * subscription, and the per-subscription invoice count.
 *
 * `Date` is foreign: the model takes the local calendar year and month
 * (1 to 12) of an epoch-millisecond instant as a function parameter.
 */
module InvoiceNumbers {
  import opened Wrappers
  import Text
  import Sorting

  /** The local-time year and month (1 to 12) of an instant. */
  datatype CalendarDate = CalendarDate(year: int, month: int)

  /** A stored date field: empty, or an instant in epoch milliseconds. */
  datatype DateField = Unset | At(ms: int)

  /** A value assigned to a date field: a number (Unix seconds), or any
    * other value, which is stored as it is. */
  datatype DateInput = Number(seconds: int) | Passed(date: DateField)

  /** A stored subscription invoice (the fields the handlers read or
    * compute; the ones copied verbatim from the gateway are left out). */
  datatype Invoice = Invoice(
    invId: string,
    subscriptionId: string,
    number: string,
    sequence: nat,
    subSequence: nat,
    financialYear: string,
    count: nat,
    amount: real,
    amountPaid: real,
    paidAt: DateField,
    billingStart: DateField,
    billingEnd: DateField,
    createdAt: DateField,
    issuedAt: DateField,
    status: Option<string>)

  /** What `generateInvoiceNumber` returns. */
  datatype Numbering = Numbering(number: string, sequence: nat, subSequence: nat, financialYear: string)

  /** The statuses the schema's enum allows. */
  const Statuses: seq<string> := ["paid", "draft", "issued", "partially_paid", "cancelled", "expired", "deleted"]

  /** The schema default of `invoice_sub_sequence`. */
  const DefaultSubSequence: nat := 0

  const Prefix: string := "BII/"

  function Millis(seconds: int): int {
    seconds * 1000
  }

  /** The date setter of every date field: a number is read as Unix seconds,
    * anything else is kept. */
  function SetDate(v: DateInput): (r: DateField)
    ensures v.Number? ==> r.At? && r.ms / 1000 == v.seconds && r.ms % 1000 == 0
    ensures v.Passed? ==> r == v.date
  {
    match v
    case Number(s) => At(Millis(s))
    case Passed(d) => d
  }

  /** Setting a date field to what it already holds changes nothing. */
  lemma SetDateStable(v: DateInput)
    ensures SetDate(Passed(SetDate(v))) == SetDate(v)
  {
  }

  /** Whether a status passes the enum validator (an absent one does). */
  predicate StatusValid(status: Option<string>) {
    status.None? || status.value in Statuses
  }

  // ---------------------------------------------------------------------
  // The financial year

  /** The calendar year in which the financial year holding `c` begins. */
  function StartYear(c: CalendarDate): int {
    if c.month < 4 then c.year - 1 else c.year
  }

  /** The name of the financial year that begins in April of `start`: the
    * year, '-', and the last two digits of the next year. */
  function LabelOf(start: int): string {
    Text.IntToString(start) + "-" + Text.LastChars(Text.IntToString(start + 1), 2)
  }

  /** `getFinancialYear` of a date: January to March belong to the year that
    * began in the previous April. */
  function FyLabel(c: CalendarDate): (r: string)
    ensures r == LabelOf(StartYear(c))
  {
    if c.month < 4 then Text.IntToString(c.year - 1) + "-" + Text.LastChars(Text.IntToString(c.year), 2)
    else Text.IntToString(c.year) + "-" + Text.LastChars(Text.IntToString(c.year + 1), 2)
  }

  /** `getFinancialYear(paid_at)` for a payment date in Unix seconds or
    * `null`: a falsy value, which includes the number 0, gives "". */
  function FinancialYear(paidAt: Option<int>, calendar: int -> CalendarDate): (r: string)
    ensures r == "" <==> paidAt.None? || paidAt.value == 0
    ensures r != "" ==> r == FyLabel(calendar(Millis(paidAt.value)))
  {
    if paidAt.None? || paidAt.value == 0 then ""
    else
      var fyText := FyLabel(calendar(Millis(paidAt.value)));
      assert fyText[|Text.IntToString(StartYear(calendar(Millis(paidAt.value))))|] == '-';
      fyText
  }

  /** Two digit strings each followed by '-' begin equal texts only when
    * they are the same string. */
  lemma DigitsBeforeDash(a: string, b: string, ta: string, tb: string)
    requires Text.AllDigits(a) && Text.AllDigits(b) && a + "-" + ta == b + "-" + tb
    ensures a == b
  {
    var t := a + "-" + ta;
    assert t[|a|] == '-' && t[..|a|] == a;
    assert t[|b|] == '-' && t[..|b|] == b;
  }

  /** Distinct non-negative start years have distinct names. */
  lemma LabelOfInjective(s1: nat, s2: nat)
    requires LabelOf(s1) == LabelOf(s2)
    ensures s1 == s2
  {
    var a := Text.NatToString(s1);
    var b := Text.NatToString(s2);
    DigitsBeforeDash(a, b, Text.LastChars(Text.IntToString(s1 + 1), 2), Text.LastChars(Text.IntToString(s2 + 1), 2));
    Text.NatToStringInjective(s1, s2);
  }

  /** Two dates of non-negative years have the same label exactly when
    * they lie in the same financial year. */
  lemma FyLabelIff(c1: CalendarDate, c2: CalendarDate)
    requires StartYear(c1) >= 0 && StartYear(c2) >= 0
    ensures FyLabel(c1) == FyLabel(c2) <==> StartYear(c1) == StartYear(c2)
  {
    if FyLabel(c1) == FyLabel(c2) {
      LabelOfInjective(StartYear(c1), StartYear(c2));
    }
  }

  /** January to March of one year share the label of April to December of
    * the year before. */
  lemma EarlyMonthsCloseTheYear(year: int, early: int, late: int)
    requires 1 <= early < 4 <= late <= 12
    ensures FyLabel(CalendarDate(year + 1, early)) == FyLabel(CalendarDate(year, late))
  {
  }

  /** March 2025 still belongs to 2024-25; April 2025 opens 2025-26. */
  lemma {:induction false} TwentyTwentyFive()
    ensures FyLabel(CalendarDate(2025, 3)) == "2024-25"
    ensures FyLabel(CalendarDate(2025, 4)) == "2025-26"
  {
    assert Text.NatToString(202) == "202";
    assert Text.NatToString(2024) == "2024";
    assert Text.NatToString(2025) == "2025";
    assert Text.NatToString(2026) == "2026";
  }

  // ---------------------------------------------------------------------
  // Queries over the stored invoices

  /** The highest sequence stored in financial year `fy`, if any (the
    * `findOne` sorted by `invoice_sequence` descending). */
  function MaxSequence(stored: seq<Invoice>, fy: string): (r: Option<nat>)
    ensures r.None? <==> forall k :: 0 <= k < |stored| ==> stored[k].financialYear != fy
    ensures r.Some? ==> forall k :: 0 <= k < |stored| && stored[k].financialYear == fy ==> stored[k].sequence <= r.value
    ensures r.Some? ==> exists k :: 0 <= k < |stored| && stored[k].financialYear == fy && stored[k].sequence == r.value
    decreases |stored|
  {
    if |stored| == 0 then None
    else
      var init := stored[..|stored| - 1];
      var x := stored[|stored| - 1];
      var m := MaxSequence(init, fy);
      assert forall k :: 0 <= k < |init| ==> init[k] == stored[k];
      if x.financialYear != fy then m
      else if m.Some? && m.value >= x.sequence then m
      else Some(x.sequence)
  }

  /** The invoices of subscription `sid`, in stored order. */
  function Only(stored: seq<Invoice>, sid: string): (r: seq<Invoice>)
    ensures forall x :: x in r <==> x in stored && x.subscriptionId == sid
    decreases |stored|
  {
    if |stored| == 0 then []
    else
      var init := Only(stored[..|stored| - 1], sid);
      var x := stored[|stored| - 1];
      assert stored == stored[..|stored| - 1] + [x];
      if x.subscriptionId == sid then init + [x] else init
  }

  /** The invoices of subscription `sid` in financial year `fy`, in stored
    * order. */
  function Prior(stored: seq<Invoice>, sid: string, fy: string): (r: seq<Invoice>)
    ensures forall x :: x in r <==> x in stored && x.subscriptionId == sid && x.financialYear == fy
    decreases |stored|
  {
    if |stored| == 0 then []
    else
      var init := Prior(stored[..|stored| - 1], sid, fy);
      var x := stored[|stored| - 1];
      assert stored == stored[..|stored| - 1] + [x];
      if x.subscriptionId == sid && x.financialYear == fy then init + [x] else init
  }

  /** Appending an invoice of another subscription or year leaves the
    * prior invoices as they were; one of the same pair joins them. */
  lemma PriorAppend(stored: seq<Invoice>, sid: string, fy: string, x: Invoice)
    ensures Prior(stored + [x], sid, fy)
         == if x.subscriptionId == sid && x.financialYear == fy then Prior(stored, sid, fy) + [x]
            else Prior(stored, sid, fy)
  {
    assert (stored + [x])[..|stored|] == stored;
  }

  /** `a` is paid no later than `b`; an empty date sorts first. */
  predicate NotLater(a: DateField, b: DateField) {
    a.Unset? || (b.At? && a.ms <= b.ms)
  }

  /** The sort key of `sort({ paid_at: 1 })`: empty dates first, then
    * increasing instants, as a key for the descending sort. */
  function PaidKey(x: Invoice): (k: Sorting.Key)
  {
    match x.paidAt
    case Unset => Sorting.Key(1, 0)
    case At(ms) => Sorting.Key(0, -ms)
  }

  lemma PaidKeyOrder(x: Invoice, y: Invoice)
    ensures Sorting.AtLeast(PaidKey(x), PaidKey(y)) <==> NotLater(x.paidAt, y.paidAt)
  {
  }

  /** `invoices` ordered by payment date, earliest first; invoices paid at
    * the same instant keep their stored order. */
  function ByPaidAt(invoices: seq<Invoice>): (r: seq<Invoice>)
    ensures |r| == |invoices|
  {
    Sorting.SortDesc(invoices, PaidKey)
  }

  /** The first of the invoices ordered by payment date is one of them and
    * is paid no later than any of them. */
  lemma ByPaidAtFirst(invoices: seq<Invoice>)
    requires |invoices| > 0
    ensures var e := ByPaidAt(invoices)[0];
      e in invoices && forall y :: y in invoices ==> NotLater(e.paidAt, y.paidAt)
  {
    var r := ByPaidAt(invoices);
    Sorting.SortDescSorted(invoices, PaidKey);
    Sorting.SortDescMembers(invoices, PaidKey);
    forall y | y in invoices
      ensures NotLater(r[0].paidAt, y.paidAt)
    {
      var j :| 0 <= j < |r| && r[j] == y;
      if j > 0 {
        assert Sorting.AtLeast(PaidKey(r[0]), PaidKey(r[j]));
      }
      PaidKeyOrder(r[0], y);
    }
  }

  // ---------------------------------------------------------------------
  // Numbering

  /** `String(n).padStart(2, "0")`. */
  function TwoDigits(n: nat): string {
    Text.PadStart(Text.NatToString(n), 2, '0')
  }

  /** `generateInvoiceNumber(subscriptionId, paidAt)` against the stored
    * invoices: the sequence is one above the highest of the financial year
    * in both branches; the first invoice of the subscription in that year
    * is "BII/<year>/<sequence>", and a later one is the earliest prior
    * number followed by "." and the count of prior invoices. */
  function Generate(stored: seq<Invoice>, sid: string, paidAt: Option<int>, calendar: int -> CalendarDate)
    : (r: Numbering)
    ensures r.financialYear == FinancialYear(paidAt, calendar)
    ensures r.sequence >= 1
    ensures forall k :: 0 <= k < |stored| && stored[k].financialYear == r.financialYear ==> stored[k].sequence < r.sequence
    ensures (forall k :: 0 <= k < |stored| ==> stored[k].financialYear != r.financialYear) ==> r.sequence == 1
    ensures (exists k :: 0 <= k < |stored| && stored[k].financialYear == r.financialYear)
            ==> exists k :: 0 <= k < |stored| && stored[k].financialYear == r.financialYear
                            && stored[k].sequence + 1 == r.sequence
    ensures r.subSequence == |Prior(stored, sid, r.financialYear)|
  {
    var fy := FinancialYear(paidAt, calendar);
    var last := MaxSequence(stored, fy);
    var next: nat := if last.Some? then last.value + 1 else 1;
    var previous := ByPaidAt(Prior(stored, sid, fy));
    if |previous| == 0 then Numbering(Prefix + fy + "/" + TwoDigits(next), next, 0, fy)
    else Numbering(previous[0].number + "." + Text.NatToString(|previous|), next, |previous|, fy)
  }

  /** A leading zero does not change the value of a digit string. */
  lemma {:induction false} LeadingZero(s: string)
    requires Text.AllDigits(s)
    ensures Text.AllDigits("0" + s) && Text.ParseDigits("0" + s) == Text.ParseDigits(s)
    decreases |s|
  {
    if |s| > 0 {
      var t := "0" + s;
      assert t[..|t| - 1] == "0" + s[..|s| - 1];
      LeadingZero(s[..|s| - 1]);
    }
  }

  /** Two-digit padding keeps the value: the padded text reads back as the
    * number. */
  lemma TwoDigitsValue(n: nat)
    ensures var d := TwoDigits(n);
      |d| >= 2 && Text.AllDigits(d) && Text.ParseDigits(d) == n
  {
    var s := Text.NatToString(n);
    Text.ParseNatToString(n);
    if |s| < 2 {
      assert TwoDigits(n) == "0" + s;
      LeadingZero(s);
    }
  }

  /** The first invoice of a subscription in a financial year is numbered
    * "BII/<year>/" followed by at least two digits that read back as its
    * sequence, and has sub-sequence 0, the schema default. */
  lemma FirstNumber(stored: seq<Invoice>, sid: string, paidAt: Option<int>, calendar: int -> CalendarDate)
    requires |Prior(stored, sid, FinancialYear(paidAt, calendar))| == 0
    ensures var r := Generate(stored, sid, paidAt, calendar);
      r.subSequence == DefaultSubSequence
      && exists d :: r.number == Prefix + r.financialYear + "/" + d
                     && |d| >= 2 && Text.AllDigits(d) && Text.ParseDigits(d) == r.sequence
  {
    var r := Generate(stored, sid, paidAt, calendar);
    TwoDigitsValue(r.sequence);
    assert r.number == Prefix + r.financialYear + "/" + TwoDigits(r.sequence);
  }

  /** A repeat invoice is numbered after the earliest paid prior invoice of
    * the same subscription and year, with the count of prior invoices. */
  lemma RepeatNumber(stored: seq<Invoice>, sid: string, paidAt: Option<int>, calendar: int -> CalendarDate)
    requires |Prior(stored, sid, FinancialYear(paidAt, calendar))| > 0
    ensures var r := Generate(stored, sid, paidAt, calendar);
      var prior := Prior(stored, sid, r.financialYear);
      r.subSequence == |prior| > 0
      && exists e :: e in stored && e.subscriptionId == sid && e.financialYear == r.financialYear
                     && (forall y :: y in prior ==> NotLater(e.paidAt, y.paidAt))
                     && r.number == e.number + "." + Text.NatToString(r.subSequence)
  {
    var fy := FinancialYear(paidAt, calendar);
    ByPaidAtFirst(Prior(stored, sid, fy));
  }

  /** Storing an invoice of the same subscription and year, paid no earlier
    * than any stored one of that subscription, moves the next repeat number
    * on by one and keeps its base. */
  lemma NextRepeatNumber(stored: seq<Invoice>, sid: string, x: Invoice, paidAt: Option<int>,
                         calendar: int -> CalendarDate)
    requires x.subscriptionId == sid && x.financialYear == FinancialYear(paidAt, calendar)
    requires forall k :: 0 <= k < |stored| && stored[k].subscriptionId == sid ==> NotLater(stored[k].paidAt, x.paidAt)
    requires |Prior(stored, sid, x.financialYear)| > 0
    ensures var g := Generate(stored, sid, paidAt, calendar);
      var h := Generate(stored + [x], sid, paidAt, calendar);
      h.subSequence == g.subSequence + 1
      && exists base :: g.number == base + "." + Text.NatToString(g.subSequence)
                        && h.number == base + "." + Text.NatToString(h.subSequence)
  {
    var fy := x.financialYear;
    var prior := Prior(stored, sid, fy);
    PriorAppend(stored, sid, fy, x);
    var sorted := Sorting.SortDesc(prior, PaidKey);
    assert prior + [x] == (prior + [x])[..|prior|] + [x];
    assert (prior + [x])[..|prior|] == prior;
    assert Sorting.SortDesc(prior + [x], PaidKey) == Sorting.Insert(x, sorted, PaidKey);
    ByPaidAtFirst(prior);
    assert sorted[0] in stored;
    PaidKeyOrder(sorted[0], x);
    assert Sorting.Insert(x, sorted, PaidKey)[0] == sorted[0];
  }

  /** The first invoice of a subscription in a year, once stored, is the
    * base of the next one's number: "<number>.1". */
  lemma SecondNumber(stored: seq<Invoice>, sid: string, x: Invoice, paidAt: Option<int>,
                     calendar: int -> CalendarDate)
    requires x.subscriptionId == sid && x.financialYear == FinancialYear(paidAt, calendar)
    requires |Prior(stored, sid, x.financialYear)| == 0
    ensures var h := Generate(stored + [x], sid, paidAt, calendar);
      h.subSequence == 1 && h.number == x.number + ".1"
  {
    PriorAppend(stored, sid, x.financialYear, x);
    assert Prior(stored + [x], sid, x.financialYear) == [x];
    assert Text.NatToString(1) == "1";
  }

  // ---------------------------------------------------------------------
  // The per-subscription count

  /** The highest `subscription_invoice_count` stored for `sid`, if any. */
  function MaxCount(stored: seq<Invoice>, sid: string): (r: Option<nat>)
    ensures r.None? <==> forall k :: 0 <= k < |stored| ==> stored[k].subscriptionId != sid
    ensures r.Some? ==> forall k :: 0 <= k < |stored| && stored[k].subscriptionId == sid ==> stored[k].count <= r.value
    ensures r.Some? ==> exists k :: 0 <= k < |stored| && stored[k].subscriptionId == sid && stored[k].count == r.value
    decreases |stored|
  {
    if |stored| == 0 then None
    else
      var init := stored[..|stored| - 1];
      var x := stored[|stored| - 1];
      var m := MaxCount(init, sid);
      assert forall k :: 0 <= k < |init| ==> init[k] == stored[k];
      if x.subscriptionId != sid then m
      else if m.Some? && m.value >= x.count then m
      else Some(x.count)
  }

  /** `getNextSubscriptionInvoiceCount(sid)`: one above the highest count of
    * the subscription, or 1 for its first invoice. */
  function NextCount(stored: seq<Invoice>, sid: string): (r: nat)
    ensures r >= 1
    ensures forall k :: 0 <= k < |stored| && stored[k].subscriptionId == sid ==> stored[k].count < r
    ensures (forall k :: 0 <= k < |stored| ==> stored[k].subscriptionId != sid) ==> r == 1
    ensures (exists k :: 0 <= k < |stored| && stored[k].subscriptionId == sid)
            ==> exists k :: 0 <= k < |stored| && stored[k].subscriptionId == sid && stored[k].count + 1 == r
  {
    match MaxCount(stored, sid)
    case None => 1
    case Some(m) => m + 1
  }

  /** The highest count of a subscription is that of its own invoices. */
  lemma {:induction false} MaxCountOnly(stored: seq<Invoice>, sid: string)
    ensures MaxCount(stored, sid) == MaxCount(Only(stored, sid), sid)
    decreases |stored|
  {
    if |stored| > 0 {
      var init := stored[..|stored| - 1];
      var x := stored[|stored| - 1];
      MaxCountOnly(init, sid);
      var o := Only(init, sid);
      assert stored[..|stored| - 1] == init;
      if x.subscriptionId == sid {
        assert Only(stored, sid) == o + [x];
        assert (o + [x])[..|o|] == o && (o + [x])[|o|] == x;
        var m := MaxCount(o, sid);
        assert MaxCount(o + [x], sid) == if m.Some? && m.value >= x.count then m else Some(x.count);
      } else {
        assert Only(stored, sid) == o;
      }
    }
  }

  /** Invoices of other subscriptions do not change the next count: two
    * stores holding the same invoices of `sid` give the same count. */
  lemma CountIgnoresOthers(a: seq<Invoice>, b: seq<Invoice>, sid: string)
    requires Only(a, sid) == Only(b, sid)
    ensures NextCount(a, sid) == NextCount(b, sid)
  {
    MaxCountOnly(a, sid);
    MaxCountOnly(b, sid);
  }
}
