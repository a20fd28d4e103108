/**
 * The brand export listing: the blocks of one payment status (or all),
 * oldest first, each with an invoice number built from its creation year
 * and order number, the fixed HSN code, and its creation time in Indian
 * Standard Time as a date and a 12-hour clock reading.  The year pair of
 * the invoice number follows a `PairRule`: the code's own test, which
 * every month passes, or the April boundary it evidently means.
 *
 * The calendar fields of an instant are foreign: the model takes the UTC
 * year, month, day, hour and minute of an epoch-millisecond instant as a
 * function parameter.  The GST amounts are floating point and left out.
 */
module Export {
  import opened Wrappers
  import Text
  import Sorting
  import opened BrandBlocks
  import BrandController
  import InvoiceNumbers

  /** The UTC calendar fields of an instant. */
  datatype DateParts = DateParts(year: int, month: nat, day: nat, hour: nat, minute: nat)

  /** One exported row: the computed fields and the block they belong to. */
  datatype ExportRow = ExportRow(
    invoiceNumber: Option<string>, hsnCode: string, istDate: string, istTime: string, block: BrandBlock)

  const HsnCode: string := "998361"

  /** India is 5 hours 30 minutes ahead of UTC. */
  const IstOffsetMinutes: int := 330

  /** The filter: a payment status when the query gives a non-empty one. */
  function StatusFilter(paymentStatus: Option<string>): (r: Option<string>)
    ensures r.Some? <==> paymentStatus.Some? && |paymentStatus.value| > 0
    ensures r.Some? ==> r == paymentStatus
  {
    if paymentStatus.Some? && |paymentStatus.value| > 0 then paymentStatus else None
  }

  predicate Matches(filter: Option<string>, b: BrandBlock) {
    filter.None? || BrandController.RowOf(b).paymentStatus == filter.value
  }

  /** The blocks the filter keeps, in collection order. */
  function Select(blocks: seq<BrandBlock>, filter: Option<string>): (r: seq<BrandBlock>)
    ensures forall b :: b in r <==> b in blocks && Matches(filter, b)
    ensures filter.None? ==> r == blocks
    decreases |blocks|
  {
    if |blocks| == 0 then []
    else
      var init := Select(blocks[..|blocks| - 1], filter);
      var b := blocks[|blocks| - 1];
      assert blocks == blocks[..|blocks| - 1] + [b];
      if Matches(filter, b) then init + [b] else init
  }

  /** `$substr: [s, start, len]`: at most `len` characters from `start`. */
  function Substr(s: string, start: nat, len: nat): (r: string)
    ensures |r| <= len
    ensures start + len <= |s| ==> r == s[start..start + len]
  {
    if start >= |s| then "" else if start + len >= |s| then s[start..] else s[start..start + len]
  }

  /** The year pair of the invoice number as written: the test is
    * `month >= 1`, which every month passes, so the pair is always the
    * creation year and the next one. */
  function YearPairAsWritten(p: DateParts): string {
    if p.month >= 1 then Text.IntToString(p.year) + "-" + Substr(Text.IntToString(p.year + 1), 2, 2)
    else Text.IntToString(p.year - 1) + "-" + Substr(Text.IntToString(p.year), 2, 2)
  }

  /** The year pair with the April boundary the second branch is there
    * for: January to March name the financial year that began the April
    * before. */
  function YearPair(p: DateParts): string {
    if p.month >= 4 then Text.IntToString(p.year) + "-" + Substr(Text.IntToString(p.year + 1), 2, 2)
    else Text.IntToString(p.year - 1) + "-" + Substr(Text.IntToString(p.year), 2, 2)
  }

  /** The two year-pair rules: the code's `month >= 1` and the April
    * boundary. */
  datatype PairRule = AsWrittenRule | AprilRule

  function PairOf(rule: PairRule, p: DateParts): string {
    match rule
    case AsWrittenRule => YearPairAsWritten(p)
    case AprilRule => YearPair(p)
  }

  /** `1 + floor(log10 n)`. */
  function Digits(n: nat): (d: nat)
    ensures d >= 1
  {
    if n < 10 then 1 else 1 + Digits(n / 10)
  }

  lemma {:induction false} NatToStringLength(n: nat)
    ensures |Text.NatToString(n)| == Digits(n)
  {
    if n >= 10 {
      NatToStringLength(n / 10);
    }
  }

  lemma FourDigits(n: nat)
    requires 1000 <= n < 10000
    ensures |Text.NatToString(n)| == 4
  {
    NatToStringLength(n);
    assert Digits(n / 1000) == 1;
    assert Digits(n / 100) == 2;
    assert Digits(n / 10) == 3;
  }

  /** For four-digit years `$substr(…, 2, 2)` is the last two digits. */
  lemma SubstrIsLastTwo(year: int)
    requires 1000 <= year < 10000
    ensures Substr(Text.IntToString(year), 2, 2) == Text.LastChars(Text.IntToString(year), 2)
  {
    FourDigits(year);
  }

  /** With the April boundary, the pair is the financial year the
    * subscription invoices use. */
  lemma YearPairIsFinancialYear(p: DateParts)
    requires 1001 <= p.year < 9999
    ensures YearPair(p) == InvoiceNumbers.FyLabel(InvoiceNumbers.CalendarDate(p.year, p.month))
  {
    SubstrIsLastTwo(p.year);
    SubstrIsLastTwo(p.year + 1);
  }

  /** For every month the test passes, so the written pair is always the
    * calendar year and the next; in particular the two definitions differ
    * exactly for January to March. */
  lemma {:induction false} AsWrittenIgnoresMonth(p: DateParts, q: DateParts)
    requires 1 <= p.month <= 12 && 1 <= q.month <= 12 && p.year == q.year
    ensures YearPairAsWritten(p) == YearPairAsWritten(q)
    ensures p.month >= 4 ==> YearPairAsWritten(p) == YearPair(p)
  {
  }

  /** A block created in February 2025 gets "2025-26" as written, where its
    * financial year is 2024-25. */
  lemma {:induction false} FebruaryWitness()
    ensures var p := DateParts(2025, 2, 10, 9, 0);
      YearPairAsWritten(p) == "2025-26" && YearPair(p) == "2024-25"
      && InvoiceNumbers.FyLabel(InvoiceNumbers.CalendarDate(2025, 2)) == "2024-25"
  {
    assert Text.NatToString(202) == "202";
    assert Text.NatToString(2024) == "2024";
    assert Text.NatToString(2025) == "2025";
    assert Text.NatToString(2026) == "2026";
    assert Substr("2026", 2, 2) == "26";
    assert Substr("2025", 2, 2) == "25";
  }

  /** `"BII/" + <year pair> + "/" + orderNum`; `$concat` with a missing
    * order number is null. */
  function InvoiceNumber(b: BrandBlock, utc: int -> DateParts, rule: PairRule): (r: Option<string>)
    ensures r.Some? <==> b.orderNum.Some?
    ensures r.Some? ==> r.value == InvoiceNumbers.Prefix + PairOf(rule, utc(b.createdAt)) + "/"
                                   + Text.IntToString(b.orderNum.value)
  {
    if b.orderNum.None? then None
    else Some(InvoiceNumbers.Prefix + PairOf(rule, utc(b.createdAt)) + "/" + Text.IntToString(b.orderNum.value))
  }

  /** The invoice number ends with the order number, after the last '/'. */
  lemma InvoiceNumberEnds(b: BrandBlock, utc: int -> DateParts, rule: PairRule)
    requires b.orderNum.Some? && b.orderNum.value >= 0
    ensures var n := InvoiceNumber(b, utc, rule).value;
      var d := Text.NatToString(b.orderNum.value);
      |d| < |n| && n[|n| - |d|..] == d && n[|n| - |d| - 1] == '/'
      && Text.ParseDigits(n[|n| - |d|..]) == b.orderNum.value
  {
    var d := Text.NatToString(b.orderNum.value);
    var head := InvoiceNumbers.Prefix + PairOf(rule, utc(b.createdAt));
    assert InvoiceNumber(b, utc, rule).value == head + "/" + d;
    Text.ParseNatToString(b.orderNum.value);
  }

  /** The instant shifted to Indian Standard Time. */
  function Ist(ms: int): int {
    ms + IstOffsetMinutes * 60 * 1000
  }

  /** The hour on a 12-hour clock. */
  function Hour12(h24: int): int {
    if h24 == 0 then 12 else if h24 > 12 then h24 - 12 else h24
  }

  function Meridiem(h24: int): string {
    if h24 >= 12 then "PM" else "AM"
  }

  /** The minute with a leading zero below 10. */
  function MinuteText(m: int): string {
    if m < 10 then "0" + Text.IntToString(m) else Text.IntToString(m)
  }

  /** `h:mm AM` / `h:mm PM`. */
  function TimeText(h24: int, m: int): string {
    Text.IntToString(Hour12(h24)) + ":" + MinuteText(m) + " " + Meridiem(h24)
  }

  /** The 24-hour reading of a 12-hour one, as a reference definition. */
  function Hour24(h12: int, pm: bool): int {
    if pm then (if h12 == 12 then 12 else h12 + 12) else (if h12 == 12 then 0 else h12)
  }

  /** The 12-hour reading names every hour of the day once: it lies in 1 to
    * 12 and, with the suffix, gives the hour back. */
  lemma ClockRoundTrip(h24: int)
    requires 0 <= h24 < 24
    ensures 1 <= Hour12(h24) <= 12
    ensures Hour24(Hour12(h24), Meridiem(h24) == "PM") == h24
  {
  }

  /** Every 12-hour reading with a suffix comes from exactly one hour. */
  lemma ClockOnto(h12: int, pm: bool)
    requires 1 <= h12 <= 12
    ensures var h := Hour24(h12, pm);
      0 <= h < 24 && Hour12(h) == h12 && (Meridiem(h) == "PM" <==> pm)
  {
  }

  /** A minute of the hour is written with two digits that read back as it. */
  lemma MinuteTextSpec(m: int)
    requires 0 <= m < 60
    ensures var t := MinuteText(m);
      |t| == 2 && Text.AllDigits(t) && Text.ParseDigits(t) == m
  {
    var s := Text.NatToString(m);
    Text.ParseNatToString(m);
    NatToStringLength(m);
    if m < 10 {
      InvoiceNumbers.LeadingZero(s);
    } else {
      assert Digits(m / 10) == 1;
    }
  }

  /** `%Y-%m-%d`. */
  function DateText(p: DateParts): string {
    Text.PadStart(Text.IntToString(p.year), 4, '0') + "-" + InvoiceNumbers.TwoDigits(p.month) + "-"
    + InvoiceNumbers.TwoDigits(p.day)
  }

  /** The exported fields of one block. */
  function RowFor(b: BrandBlock, utc: int -> DateParts, rule: PairRule): (r: ExportRow)
    ensures r.block == b && r.hsnCode == HsnCode && r.invoiceNumber == InvoiceNumber(b, utc, rule)
    ensures var p := utc(Ist(b.createdAt));
      r.istDate == DateText(p) && r.istTime == TimeText(p.hour, p.minute)
  {
    var p := utc(Ist(b.createdAt));
    ExportRow(InvoiceNumber(b, utc, rule), HsnCode, DateText(p), TimeText(p.hour, p.minute), b)
  }

  /** The sort key of `createdAt` ascending, as a key for the descending sort. */
  function CreatedKey(b: BrandBlock): Sorting.Key {
    Sorting.Key(-b.createdAt, 0)
  }

  /** `getALlBrandListForExport`: the selected blocks, oldest first, as
    * export rows.  The program is the `AsWrittenRule` instance. */
  function ExportList(blocks: seq<BrandBlock>, paymentStatus: Option<string>, utc: int -> DateParts, rule: PairRule)
    : (r: seq<ExportRow>)
    ensures |r| == |Select(blocks, StatusFilter(paymentStatus))|
  {
    var sorted := Sorting.SortDesc(Select(blocks, StatusFilter(paymentStatus)), CreatedKey);
    seq(|sorted|, i requires 0 <= i < |sorted| => RowFor(sorted[i], utc, rule))
  }

  /** The blocks of a list of rows. */
  function BlocksOf(r: seq<ExportRow>): (bs: seq<BrandBlock>)
    ensures |bs| == |r| && forall i :: 0 <= i < |r| ==> bs[i] == r[i].block
  {
    seq(|r|, i requires 0 <= i < |r| => r[i].block)
  }

  /** The rows hold the selected blocks in sorted order, each with its
    * computed fields. */
  lemma ExportRows(blocks: seq<BrandBlock>, paymentStatus: Option<string>, utc: int -> DateParts, rule: PairRule)
    ensures var r := ExportList(blocks, paymentStatus, utc, rule);
      BlocksOf(r) == Sorting.SortDesc(Select(blocks, StatusFilter(paymentStatus)), CreatedKey)
      && forall i :: 0 <= i < |r| ==> r[i] == RowFor(r[i].block, utc, rule)
  {
  }

  /** The rows are the selected blocks, each once, oldest first, each with
    * the fixed HSN code. */
  lemma ExportListSpec(blocks: seq<BrandBlock>, paymentStatus: Option<string>, utc: int -> DateParts,
                       rule: PairRule)
    ensures var r := ExportList(blocks, paymentStatus, utc, rule);
      multiset(BlocksOf(r)) == multiset(Select(blocks, StatusFilter(paymentStatus)))
      && (forall i :: 0 <= i < |r| ==> r[i].hsnCode == HsnCode)
      && (forall i, j :: 0 <= i < j < |r| ==> r[i].block.createdAt <= r[j].block.createdAt)
  {
    var selected := Select(blocks, StatusFilter(paymentStatus));
    var r := ExportList(blocks, paymentStatus, utc, rule);
    ExportRows(blocks, paymentStatus, utc, rule);
    Sorting.SortDescPerm(selected, CreatedKey);
    Sorting.SortDescSorted(selected, CreatedKey);
    forall i, j | 0 <= i < j < |r|
      ensures r[i].block.createdAt <= r[j].block.createdAt
    {
      assert BlocksOf(r)[i] == r[i].block && BlocksOf(r)[j] == r[j].block;
    }
  }

  /** The listing as written and as intended hold the same blocks in the
    * same order with the same code, date and time; their invoice numbers
    * differ only for blocks created from January to March. */
  lemma ListingsAgreeFromApril(blocks: seq<BrandBlock>, paymentStatus: Option<string>, utc: int -> DateParts)
    ensures var a := ExportList(blocks, paymentStatus, utc, AsWrittenRule);
      var m := ExportList(blocks, paymentStatus, utc, AprilRule);
      |a| == |m|
      && forall i :: 0 <= i < |a| ==>
           a[i].block == m[i].block && a[i].hsnCode == m[i].hsnCode
           && a[i].istDate == m[i].istDate && a[i].istTime == m[i].istTime
           && (utc(a[i].block.createdAt).month >= 4 ==> a[i].invoiceNumber == m[i].invoiceNumber)
  {
  }

  /** A one-block listing is that block's row. */
  lemma SingleRow(b: BrandBlock, utc: int -> DateParts, rule: PairRule)
    ensures |ExportList([b], None, utc, rule)| == 1
    ensures ExportList([b], None, utc, rule)[0].invoiceNumber == InvoiceNumber(b, utc, rule)
  {
    Sorting.SortDescPerm([b], CreatedKey);
    var sorted := Sorting.SortDesc([b], CreatedKey);
    assert |sorted| == 1 && sorted[0] in multiset([b]);
  }

  lemma TwelveText()
    ensures Text.IntToString(12) == "12"
  {
    assert Text.NatToString(1) == "1";
  }

  lemma FebruaryPairs(p: DateParts)
    requires p == DateParts(2025, 2, 10, 9, 0)
    ensures PairOf(AsWrittenRule, p) == "2025-26" && PairOf(AprilRule, p) == "2024-25"
  {
    FebruaryWitness();
  }

  /** The one-block listing of a block numbered 12 carries its year pair. */
  lemma NumberTwelveRow(b: BrandBlock, utc: int -> DateParts, rule: PairRule, pair: string)
    requires b.orderNum == Some(12) && PairOf(rule, utc(b.createdAt)) == pair
    ensures ExportList([b], None, utc, rule)[0].invoiceNumber == Some("BII/" + pair + "/" + "12")
  {
    SingleRow(b, utc, rule);
    TwelveText();
  }

  /** The listing the program sends: a block numbered 12 and created in
    * February 2025 is exported as "BII/2025-26/12", where its financial
    * year gives "BII/2024-25/12". */
  lemma ExportFebruaryWitness(b: BrandBlock, utc: int -> DateParts)
    requires b.orderNum == Some(12) && utc(b.createdAt) == DateParts(2025, 2, 10, 9, 0)
    ensures ExportList([b], None, utc, AsWrittenRule)[0].invoiceNumber == Some("BII/" + "2025-26" + "/" + "12")
    ensures ExportList([b], None, utc, AprilRule)[0].invoiceNumber == Some("BII/" + "2024-25" + "/" + "12")
  {
    FebruaryPairs(utc(b.createdAt));
    NumberTwelveRow(b, utc, AsWrittenRule, "2025-26");
    NumberTwelveRow(b, utc, AprilRule, "2024-25");
  }
}
