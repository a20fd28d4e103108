/**
 * The listing queries over brand blocks: the filter a query string builds,
 * the sort keys and the page arithmetic of the public block listing, the
 * jeweler listing, the panel listing and the brand-invoice listing.
 *
 * The case-insensitive regular-expression tests these filters use are not
 * modelled; a `Matcher` stands for `new RegExp(pattern, "i").test(text)`.
 */
module Queries {
  import opened Wrappers
  import Text

  /** A query-string value takes part only when it is present and non-empty
    * (JavaScript truthiness of a string). */
  function Given(v: Option<string>): Option<string> {
    if v.Some? && |v.value| > 0 then v else None
  }

  /** The category condition of a listing. */
  datatype CategoryFilter = AnyCategory | CategoryIs(name: string) | CategoryIn(names: seq<string>)

  function TrimAll(parts: seq<string>): (r: seq<string>)
    ensures |r| == |parts| && forall i :: 0 <= i < |parts| ==> r[i] == Text.Trim(parts[i])
  {
    seq(|parts|, i requires 0 <= i < |parts| => Text.Trim(parts[i]))
  }

  /** The block listings: a value containing a comma becomes a list of its
    * trimmed pieces, any other non-empty value a trimmed equality. */
  function CategoryFilterOf(category: Option<string>): CategoryFilter {
    match Given(category)
    case None => AnyCategory
    case Some(v) =>
      if ',' in v then CategoryIn(TrimAll(Text.Split(v, ',')))
      else CategoryIs(Text.Trim(v))
  }

  /** The brand-invoice listing: always a list, even for a single value. */
  function CategoryListOf(category: Option<string>): CategoryFilter {
    match Given(category)
    case None => AnyCategory
    case Some(v) => CategoryIn(TrimAll(Text.Split(v, ',')))
  }

  predicate CategoryMatches(f: CategoryFilter, c: string) {
    match f
    case AnyCategory => true
    case CategoryIs(n) => c == n
    case CategoryIn(ns) => c in ns
  }

  /** `c` is the trimmed form of one of the comma-separated pieces of `v`. */
  predicate IsPieceOf(v: string, c: string) {
    exists i :: 0 <= i < |Text.Split(v, ',')| && Text.Trim(Text.Split(v, ',')[i]) == c
  }

  /** A stored category passes the block listings' condition exactly when
    * it is the trimmed form of one of the comma-separated pieces; a single
    * value is the one-piece case. */
  lemma CategoryFilterOfSpec(v: string, c: string)
    requires |v| > 0
    ensures CategoryMatches(CategoryFilterOf(Some(v)), c) <==> IsPieceOf(v, c)
  {
    var parts := Text.Split(v, ',');
    if ',' !in v {
      Text.SplitNoSep(v, ',');
      assert CategoryFilterOf(Some(v)) == CategoryIs(Text.Trim(v));
      if c == Text.Trim(v) {
        assert Text.Trim(parts[0]) == c;
      }
      if IsPieceOf(v, c) {
        var i :| 0 <= i < |parts| && Text.Trim(parts[i]) == c;
        assert i == 0;
      }
    } else {
      var ts := TrimAll(parts);
      assert CategoryFilterOf(Some(v)) == CategoryIn(ts);
      if c in ts {
        var i :| 0 <= i < |ts| && ts[i] == c;
        assert Text.Trim(parts[i]) == c;
      }
      if IsPieceOf(v, c) {
        var i :| 0 <= i < |parts| && Text.Trim(parts[i]) == c;
        assert ts[i] == c;
      }
    }
  }

  /** The invoice listing's always-a-list condition selects the same
    * categories as the block listings' condition. */
  lemma CategoryListAgrees(category: Option<string>, c: string)
    ensures CategoryMatches(CategoryListOf(category), c) <==> CategoryMatches(CategoryFilterOf(category), c)
  {
    if Given(category).Some? {
      var v := category.value;
      if ',' !in v {
        Text.SplitNoSep(v, ',');
        assert TrimAll(Text.Split(v, ',')) == [Text.Trim(v)];
      }
    }
  }

  /** `new RegExp(pattern, "i").test(text)`. */
  type Matcher = (string, string) -> bool

  /** The conditions of a block listing's filter; `None` is an absent one. */
  datatype Filter = Filter(
    city: Option<string>, state: Option<string>, country: Option<string>,
    category: CategoryFilter, search: Option<string>, paymentStatus: Option<string>)

  /** The fields of a stored document a filter looks at; `country` is
    * `None` when the document has no such field. */
  datatype Row = Row(
    city: string, state: string, country: Option<string>, category: string,
    brandName: string, description: string, details: string, paymentStatus: string)

  /** What `find(filter)` keeps. */
  predicate Selects(f: Filter, r: Row, re: Matcher) {
    (f.city.Some? ==> re(f.city.value, r.city))
    && (f.state.Some? ==> re(f.state.value, r.state))
    && (f.country.Some? ==> r.country.Some? && re(f.country.value, r.country.value))
    && CategoryMatches(f.category, r.category)
    && (f.search.Some? ==>
          re(f.search.value, r.brandName) || re(f.search.value, r.description) || re(f.search.value, r.details))
    && (f.paymentStatus.Some? ==> r.paymentStatus == f.paymentStatus.value)
  }

  /** The query string of a block listing; every value is optional. */
  datatype ListingParams = ListingParams(
    city: Option<string>, state: Option<string>, country: Option<string>,
    lat: Option<string>, lng: Option<string>,
    category: Option<string>, search: Option<string>, paymentStatus: Option<string>,
    sort: Option<string>, order: Option<string>,
    page: Option<string>, limit: Option<string>)

  /** The filter of the public block listing: it has no geographic mode and
    * no payment-status condition. */
  function BlocksFilter(q: ListingParams): (f: Filter)
    ensures f.paymentStatus.None?
    ensures f.city == Given(q.city) && f.state == Given(q.state) && f.country == Given(q.country)
  {
    Filter(Given(q.city), Given(q.state), Given(q.country),
           CategoryFilterOf(q.category), Given(q.search), None)
  }

  /** Both coordinates are given. */
  predicate HasGeo(q: ListingParams) {
    Given(q.lat).Some? && Given(q.lng).Some?
  }

  /** The filter of the jeweler and panel listings: the city condition is
    * dropped when both coordinates are given, and the payment status is
    * `"success"` unless the query names another. */
  function PanelFilter(q: ListingParams): Filter {
    Filter(if HasGeo(q) then None else Given(q.city), Given(q.state), Given(q.country),
           CategoryFilterOf(q.category), Given(q.search),
           Some(if q.paymentStatus.Some? then q.paymentStatus.value else "success"))
  }

  /** The panel filters always restrict the payment status, by default to
    * paid blocks; they filter on the city exactly when a city is given and
    * the coordinates are not both given; otherwise they agree with the
    * public listing. */
  lemma PanelFilterSpec(q: ListingParams, r: Row, re: Matcher)
    ensures Selects(PanelFilter(q), r, re) ==>
      r.paymentStatus == (if q.paymentStatus.Some? then q.paymentStatus.value else "success")
    ensures PanelFilter(q).city.Some? <==> Given(q.city).Some? && !HasGeo(q)
    ensures !HasGeo(q) ==>
      (Selects(PanelFilter(q), r, re) <==>
         Selects(BlocksFilter(q), r, re) && r.paymentStatus == PanelFilter(q).paymentStatus.value)
  {
  }

  /** With nothing but the defaults, the public listing selects every row
    * and the panel listings every paid row. */
  lemma DefaultFiltersSelectAll(r: Row, re: Matcher)
    ensures var q := ListingParams(None, None, None, None, None, None, None, None, None, None, None, None);
      Selects(BlocksFilter(q), r, re)
      && (Selects(PanelFilter(q), r, re) <==> r.paymentStatus == "success")
  {
  }

  datatype Direction = Ascending | Descending

  /** The sort field, `"orderNum"` when absent. */
  function SortField(sort: Option<string>): string {
    if sort.Some? then sort.value else "orderNum"
  }

  /** The sort keys: the requested field in the requested direction, then
    * `orderNum` ascending when the requested field is another one. */
  function SortOption(sort: Option<string>, order: Option<string>): (keys: seq<(string, Direction)>)
    ensures 1 <= |keys| <= 2 && keys[0].0 == SortField(sort)
    ensures keys[0].1 == Descending <==> order == Some("desc")
    ensures keys[|keys| - 1].0 == "orderNum"
    ensures forall i :: 0 <= i < |keys| - 1 ==> keys[i].0 != "orderNum"
    ensures |keys| == 2 ==> keys[1].1 == Ascending
  {
    var first := (SortField(sort), if order == Some("desc") then Descending else Ascending);
    if first.0 != "orderNum" then [first, ("orderNum", Ascending)] else [first]
  }

  /** `(page - 1) * limit`. */
  function Skip(page: int, limit: int): int {
    (page - 1) * limit
  }

  /** `Math.ceil(total / limit)`; `None` for a zero limit. */
  function TotalPages(total: nat, limit: int): Option<int> {
    Text.CeilDiv(total, limit)
  }

  /** Later pages start later: each page starts a full limit after any
    * earlier one. */
  lemma {:induction false} SkipGap(a: int, b: int, limit: int)
    requires a < b && limit >= 0
    ensures Skip(a, limit) + limit <= Skip(b, limit)
    decreases b - a
  {
    assert Skip(a + 1, limit) == Skip(a, limit) + limit;
    if a + 1 < b {
      SkipGap(a + 1, b, limit);
    }
  }

  /** From page 1 on, nothing is skipped backwards. */
  lemma SkipNonNegative(page: int, limit: int)
    requires page >= 1 && limit >= 0
    ensures Skip(page, limit) >= 0
  {
    assert Skip(1, limit) == 0;
    if 1 < page {
      SkipGap(1, page, limit);
    }
  }

  /** With a positive limit the pages 1 to `TotalPages` partition the
    * matching documents: document `t` is on page `t / limit + 1` only. */
  lemma {:induction false} PagesPartition(total: nat, limit: int, t: int)
    requires limit >= 1 && 0 <= t < total
    ensures var p := t / limit + 1;
      1 <= p <= TotalPages(total, limit).value
      && Skip(p, limit) <= t < Skip(p, limit) + limit
      && forall p' :: Skip(p', limit) <= t < Skip(p', limit) + limit ==> p' == p
  {
    var n := TotalPages(total, limit).value;
    var q, m := t / limit, t % limit;
    assert t == q * limit + m && 0 <= m < limit;
    var p := q + 1;
    assert Skip(p, limit) == q * limit;
    assert total <= Skip(n + 1, limit);
    if n < p {
      SkipGap(n, p, limit);
    }
    forall p' | Skip(p', limit) <= t < Skip(p', limit) + limit
      ensures p' == p
    {
      if p' < p {
        SkipGap(p', p, limit);
      } else if p < p' {
        SkipGap(p, p', limit);
      }
    }
  }

  /** A query value read with `parseInt(v, 10)`; an absent one is the
    * numeric default. `None` stands for NaN. */
  function Param10(v: Option<string>, dflt: int): Option<int> {
    if v.None? then Some(dflt) else Text.ParseInt10(v.value)
  }

  /** A query value read with `parseInt(v)`. */
  function Param(v: Option<string>, dflt: int): Option<int> {
    if v.None? then Some(dflt) else Text.ParseInt(v.value)
  }

  /** `Math.max(parseInt(v, 10) || 1, 1)`: NaN and 0 become 1, and so does
    * anything smaller. */
  function Clamped(v: Option<string>, dflt: int): (n: int)
    ensures n >= 1
  {
    match Param10(v, dflt)
    case None => 1
    case Some(m) => if m < 1 then 1 else m
  }

  /** The jeweler listing's clamping keeps every positive number and turns
    * every other number into 1. */
  lemma ClampedOfNumber(m: int, dflt: int)
    ensures Clamped(Some(Text.IntToString(m)), dflt) == if m >= 1 then m else 1
  {
    Text.ParseInt10OfIntToString(m);
  }

  /** Text without a digit clamps to 1. */
  lemma ClampedOfJunk(junk: string, dflt: int)
    requires forall i :: 0 <= i < |junk| ==> !Text.IsDigit(junk[i])
    ensures Clamped(Some(junk), dflt) == 1
  {
    var t := Text.TrimStart(junk);
    assert forall i :: 0 <= i < |t| ==> t[i] == junk[|junk| - |t| + i];
    if |t| > 0 {
      assert !Text.IsDigit(t[0]);
      if |t| > 1 {
        assert !Text.IsDigit(t[1..][0]);
      }
    }
    assert Text.ParseInt10(junk) == None;
  }

  /** The jeweler listing's page window: page 1 and 100 documents by
    * default; both clamped to at least 1, so the skip is never negative. */
  function JewelerWindow(q: ListingParams): (r: (int, int))
    ensures r.0 >= 0 && r.1 >= 1
    ensures r.0 == Skip(Clamped(q.page, 1), r.1) && r.1 == Clamped(q.limit, 100)
  {
    var limitNum := Clamped(q.limit, 100);
    var pageNum := Clamped(q.page, 1);
    SkipNonNegative(pageNum, limitNum);
    (Skip(pageNum, limitNum), limitNum)
  }

  /** The panel listing's page window: page 1 and 10 documents by default,
    * read with `parseInt(v, 10)` and not clamped; NaN spreads to the skip. */
  function PanelWindow(q: ListingParams): (r: (Option<int>, Option<int>)) {
    var page := Param10(q.page, 1);
    var limit := Param10(q.limit, 10);
    (if page.Some? && limit.Some? then Some(Skip(page.value, limit.value)) else None, limit)
  }

  /** The public listing's page window: as the panel's, read with
    * `parseInt(v)`. */
  function BlocksWindow(q: ListingParams): (r: (Option<int>, Option<int>)) {
    var page := Param(q.page, 1);
    var limit := Param(q.limit, 10);
    (if page.Some? && limit.Some? then Some(Skip(page.value, limit.value)) else None, limit)
  }

  /** For written-out page and limit numbers the panel and the jeweler
    * windows agree when both are positive; the panel passes a page of 0 or
    * less through as a negative skip, where the jeweler shows page 1. */
  lemma WindowsCompared(q: ListingParams, page: int, limit: int)
    requires q.page == Some(Text.IntToString(page)) && q.limit == Some(Text.IntToString(limit))
    ensures PanelWindow(q) == (Some(Skip(page, limit)), Some(limit))
    ensures BlocksWindow(q) == PanelWindow(q)
    ensures page >= 1 && limit >= 1 ==> JewelerWindow(q) == (Skip(page, limit), limit)
    ensures page < 1 && limit >= 1 ==> PanelWindow(q).0.value < 0 && JewelerWindow(q).0 == 0
  {
    Text.ParseInt10OfIntToString(page);
    Text.ParseInt10OfIntToString(limit);
    Text.ParseIntOfIntToString(page);
    Text.ParseIntOfIntToString(limit);
    if limit >= 1 {
      ClampedOfNumber(page, 1);
      ClampedOfNumber(limit, 100);
      if page < 1 {
        SkipGap(page, 1, limit);
      }
    }
  }
}
