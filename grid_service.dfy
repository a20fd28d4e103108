/**
 * The grid-space service: the listing query built from a request's query
 * string, the impression and click counters, the "my spaces" filter and
 * the analytics access rule.
 */
module GridService {
  import opened Wrappers
  import opened Api
  import Text
  import Queries
  import opened GridSpaces
  import opened GridStore

  // ---------------------------------------------------------------------
  // The generic filter: query parameters minus the reserved ones,
  // serialised, with comparison operators turned into `$` operators.

  /** A parsed query-string value: a string, or an object such as the one
    * `price[gte]=5` parses into. */
  datatype JsonValue = JStr(s: string) | JObj(fields: seq<Field>)
  datatype Field = Field(key: string, value: JsonValue)

  const Reserved: seq<string> := ["select", "sort", "page", "limit", "status", "layout", "owner"]

  /** `removeFields.forEach((param) => delete reqQuery[param])`. */
  function RemoveFields(params: seq<Field>): (r: seq<Field>)
    ensures |r| <= |params|
    ensures forall f :: f in r <==> f in params && f.key !in Reserved
    decreases |params|
  {
    if |params| == 0 then []
    else if params[0].key in Reserved then RemoveFields(params[1..])
    else [params[0]] + RemoveFields(params[1..])
  }

  /** Parameters that are not reserved pass through in their order. */
  lemma {:induction false} RemoveFieldsKeepsOthers(params: seq<Field>)
    requires forall f :: f in params ==> f.key !in Reserved
    ensures RemoveFields(params) == params
    decreases |params|
  {
    if |params| > 0 {
      RemoveFieldsKeepsOthers(params[1..]);
      assert params == [params[0]] + params[1..];
    }
  }

  function HexDigit(d: nat): char
    requires d < 16
  {
    if d < 10 then '0' + d as char else 'a' + (d - 10) as char
  }

  /** One character of a JSON string literal, escaped as `JSON.stringify`
    * escapes it. */
  function EscapeChar(c: char): string {
    if c == '"' then "\\\""
    else if c == '\\' then "\\\\"
    else if c == '\n' then "\\n"
    else if c == '\r' then "\\r"
    else if c == '\t' then "\\t"
    else if c == '\U{0008}' then "\\b"
    else if c == '\U{000C}' then "\\f"
    else if c < ' ' then "\\u00" + [HexDigit(c as int / 16), HexDigit(c as int % 16)]
    else [c]
  }

  function Escape(s: string): string
    decreases |s|
  {
    if |s| == 0 then "" else EscapeChar(s[0]) + Escape(s[1..])
  }

  function Quote(s: string): string {
    "\"" + Escape(s) + "\""
  }

  /** `JSON.stringify`. */
  function Serialize(v: JsonValue): string
    decreases v, 1
  {
    match v
    case JStr(s) => Quote(s)
    case JObj(fs) => "{" + Members(v, 0) + "}"
  }

  function Members(v: JsonValue, i: nat): string
    requires v.JObj? && i <= |v.fields|
    decreases v, 0, |v.fields| - i
  {
    if i == |v.fields| then ""
    else
      var f := v.fields[i];
      assert f in v.fields;
      (if i > 0 then "," else "") + Quote(f.key) + ":" + Serialize(f.value) + Members(v, i + 1)
  }

  const Operators: seq<string> := ["gt", "gte", "lt", "lte", "in"]

  /** The length of the run of word characters (`\w`) that starts `s`. */
  function WordRun(s: string): (n: nat)
    ensures n <= |s|
    ensures forall i :: 0 <= i < n ==> Text.IsWordChar(s[i])
    ensures n < |s| ==> !Text.IsWordChar(s[n])
    decreases |s|
  {
    if |s| == 0 || !Text.IsWordChar(s[0]) then 0 else 1 + WordRun(s[1..])
  }

  /** `s.replace(/\b(gt|gte|lt|lte|in)\b/g, (m) => "$" + m)`.  A match has to
    * start and end at a word boundary, so it is a whole run of word
    * characters spelling one of the operators. */
  function Rewrite(s: string): string
    decreases |s|
  {
    if |s| == 0 then ""
    else if !Text.IsWordChar(s[0]) then [s[0]] + Rewrite(s[1..])
    else
      var n := WordRun(s);
      Marked(s[..n]) + Rewrite(s[n..])
  }

  /** A whole word, with `$` in front when it is an operator. */
  function Marked(w: string): string
  {
    if w in Operators then "$" + w else w
  }

  /** The word run of `a + t` is that of `a` when it ends inside `a` or
    * `t` starts with a non-word character. */
  lemma {:induction false} WordRunPrefix(a: string, t: string)
    requires WordRun(a) < |a| || (|t| > 0 && !Text.IsWordChar(t[0]))
    ensures WordRun(a + t) == WordRun(a)
    decreases |a|
  {
    if |a| > 0 && Text.IsWordChar(a[0]) {
      assert (a + t)[1..] == a[1..] + t;
      WordRunPrefix(a[1..], t);
    }
  }

  /** A whole word is rewritten exactly when it spells an operator. */
  lemma RewriteWord(w: string)
    requires |w| > 0 && forall i :: 0 <= i < |w| ==> Text.IsWordChar(w[i])
    ensures Rewrite(w) == Marked(w)
  {
    WordRunOfWord(w);
    RewriteAtWord(w);
    assert w[..|w|] == w && w[|w|..] == "";
  }

  lemma {:induction false} WordRunOfWord(w: string)
    requires forall i :: 0 <= i < |w| ==> Text.IsWordChar(w[i])
    ensures WordRun(w) == |w|
    decreases |w|
  {
    if |w| > 0 {
      WordRunOfWord(w[1..]);
    }
  }

  lemma RewriteAtWord(s: string)
    requires |s| > 0 && Text.IsWordChar(s[0])
    ensures Rewrite(s) == Marked(s[..WordRun(s)]) + Rewrite(s[WordRun(s)..])
  {
  }

  lemma RewriteAtOther(s: string)
    requires |s| > 0 && !Text.IsWordChar(s[0])
    ensures Rewrite(s) == [s[0]] + Rewrite(s[1..])
  {
  }

  /** The rewrite works separately on both sides of a non-word character:
    * quotes, colons, commas and braces of the serialised text are kept and
    * split it into independently rewritten pieces. */
  lemma {:induction false} RewriteSplit(a: string, c: char, b: string)
    requires !Text.IsWordChar(c)
    ensures Rewrite(a + [c] + b) == Rewrite(a) + [c] + Rewrite(b)
    decreases |a|, 1
  {
    if |a| == 0 {
      var s := a + [c] + b;
      assert s == [c] + b && s[1..] == b;
      RewriteAtOther(s);
    } else if !Text.IsWordChar(a[0]) {
      RewriteSplitOther(a, c, b);
    } else {
      RewriteSplitWord(a, c, b);
    }
  }

  lemma {:induction false} RewriteSplitOther(a: string, c: char, b: string)
    requires !Text.IsWordChar(c) && |a| > 0 && !Text.IsWordChar(a[0])
    ensures Rewrite(a + [c] + b) == Rewrite(a) + [c] + Rewrite(b)
    decreases |a|, 0
  {
    var s := a + [c] + b;
    assert s[0] == a[0] && s[1..] == a[1..] + [c] + b;
    RewriteAtOther(s);
    RewriteAtOther(a);
    RewriteSplit(a[1..], c, b);
  }

  lemma {:induction false} RewriteSplitWord(a: string, c: char, b: string)
    requires !Text.IsWordChar(c) && |a| > 0 && Text.IsWordChar(a[0])
    ensures Rewrite(a + [c] + b) == Rewrite(a) + [c] + Rewrite(b)
    decreases |a|, 0
  {
    var s := a + [c] + b;
    var n := WordRun(a);
    WordRunPrefix(a, [c] + b);
    assert s == a + ([c] + b);
    assert s[..n] == a[..n];
    assert s[n..] == a[n..] + [c] + b;
    RewriteAtWord(s);
    RewriteAtWord(a);
    RewriteSplit(a[n..], c, b);
  }

  /** A quoted key or value that is a single word turns into `"$gte"` and
    * the like when it is an operator, and is left alone otherwise; `"into"`
    * stays `"into"`. */
  lemma RewriteQuotedWord(w: string)
    requires |w| > 0 && forall i :: 0 <= i < |w| ==> Text.IsWordChar(w[i])
    ensures Rewrite(Quote(w)) == Quote(Marked(w))
  {
    var o := Marked(w);
    assert forall i :: 0 <= i < |o| ==> o[i] == '$' || Text.IsWordChar(o[i]);
    EscapeWord(w);
    EscapeWord(o);
    RewriteAround('"', w);
    RewriteWord(w);
  }

  /** A separator on both sides of `m` is kept and `m` is rewritten. */
  lemma RewriteAround(c: char, m: string)
    requires !Text.IsWordChar(c)
    ensures Rewrite([c] + m + [c]) == [c] + Rewrite(m) + [c]
  {
    var e: string := [];
    assert Rewrite(e) == e;
    assert [c] + m + [c] == e + [c] + (m + [c] + e);
    RewriteSplit(e, c, m + [c] + e);
    assert m + [c] + e == m + [c];
    RewriteSplit(m, c, e);
  }

  lemma {:induction false} EscapeWord(w: string)
    requires forall i :: 0 <= i < |w| ==> w[i] == '$' || Text.IsWordChar(w[i])
    ensures Escape(w) == w
    decreases |w|
  {
    if |w| > 0 {
      EscapeWord(w[1..]);
      assert w == [w[0]] + w[1..];
    }
  }

  lemma IntoIsNotAnOperator()
    ensures Rewrite(Quote("into")) == Quote("into")
  {
    RewriteQuotedWord("into");
  }

  // ---------------------------------------------------------------------
  // The listing plan.

  /** `mongoose.Types.ObjectId.isValid` on a string: 24 hexadecimal digits,
    * or any 12 characters. */
  predicate IsObjectIdText(s: string) {
    (|s| == 24 && forall i :: 0 <= i < |s| ==> Text.HexValue(s[i]).Some?) || |s| == 12
  }

  /** `parseInt(v, 10) || dflt`: NaN and 0 fall back to the default. */
  function NumberOr(v: Option<string>, dflt: int): (n: int)
    ensures n == 0 ==> dflt == 0
    ensures v.None? ==> n == dflt
  {
    match Queries.Param10(v, dflt)
    case None => dflt
    case Some(m) => if m == 0 then dflt else m
  }

  /** Puts `key: dir` into an object held as an ordered list of entries: an
    * existing key keeps its place and takes the new value, a new key goes
    * last. */
  function Put(entries: seq<(string, int)>, key: string, dir: int): (r: seq<(string, int)>)
    ensures |r| == |entries| || |r| == |entries| + 1
    ensures forall i :: 0 <= i < |entries| ==> r[i].0 == entries[i].0
    decreases |entries|
  {
    if |entries| == 0 then [(key, dir)]
    else if entries[0].0 == key then [(key, dir)] + entries[1..]
    else [entries[0]] + Put(entries[1..], key, dir)
  }

  /** The value an ordered object holds for a key. */
  function Get(entries: seq<(string, int)>, key: string): Option<int>
    decreases |entries|
  {
    if |entries| == 0 then None
    else if entries[0].0 == key then Some(entries[0].1)
    else Get(entries[1..], key)
  }

  predicate DistinctKeys(entries: seq<(string, int)>) {
    forall i, j :: 0 <= i < j < |entries| ==> entries[i].0 != entries[j].0
  }

  lemma {:induction false} PutSpec(entries: seq<(string, int)>, key: string, dir: int)
    requires DistinctKeys(entries)
    ensures DistinctKeys(Put(entries, key, dir))
    ensures Get(Put(entries, key, dir), key) == Some(dir)
    ensures forall k :: k != key ==> Get(Put(entries, key, dir), k) == Get(entries, k)
    decreases |entries|
  {
    var r := Put(entries, key, dir);
    if |entries| > 0 && entries[0].0 != key {
      PutSpec(entries[1..], key, dir);
      GetOfNew(entries[1..], key, dir, entries[0].0);
    } else if |entries| > 0 {
      assert r[1..] == entries[1..];
    }
  }

  /** A key that was absent, other than the one put, stays absent. */
  lemma {:induction false} GetOfNew(entries: seq<(string, int)>, key: string, dir: int, k: string)
    requires DistinctKeys(entries) && k != key
    requires forall i :: 0 <= i < |entries| ==> entries[i].0 != k
    ensures forall i :: 0 <= i < |Put(entries, key, dir)| ==> Put(entries, key, dir)[i].0 != k
    decreases |entries|
  {
    if |entries| > 0 && entries[0].0 != key {
      GetOfNew(entries[1..], key, dir, k);
    }
  }

  /** The sort entry one comma-separated piece stands for: `-f` is `f`
    * descending, anything else ascending. */
  function SortEntry(piece: string): (string, int) {
    if |piece| > 0 && piece[0] == '-' then (piece[1..], -1) else (piece, 1)
  }

  /** The `reduce` over the pieces of the sort string. */
  function SortFold(pieces: seq<string>): seq<(string, int)>
    decreases |pieces|
  {
    if |pieces| == 0 then []
    else
      var e := SortEntry(pieces[|pieces| - 1]);
      Put(SortFold(pieces[..|pieces| - 1]), e.0, e.1)
  }

  /** The direction of the last piece naming `key`. */
  function LastDirection(pieces: seq<string>, key: string): Option<int>
    decreases |pieces|
  {
    if |pieces| == 0 then None
    else if SortEntry(pieces[|pieces| - 1]).0 == key then Some(SortEntry(pieces[|pieces| - 1]).1)
    else LastDirection(pieces[..|pieces| - 1], key)
  }

  /** Each field is sorted once, in the direction its last mention asks for. */
  lemma {:induction false} SortFoldSpec(pieces: seq<string>)
    ensures DistinctKeys(SortFold(pieces))
    ensures forall k :: Get(SortFold(pieces), k) == LastDirection(pieces, k)
    decreases |pieces|
  {
    if |pieces| > 0 {
      var e := SortEntry(pieces[|pieces| - 1]);
      SortFoldSpec(pieces[..|pieces| - 1]);
      PutSpec(SortFold(pieces[..|pieces| - 1]), e.0, e.1);
    }
  }

  /** The `$sort` stage: newest first by default. */
  function SortStage(sort: Option<string>): (r: seq<(string, int)>)
    ensures !Truthy(sort) ==> r == [("createdAt", -1)]
  {
    if Truthy(sort) then SortFold(Text.Split(sort.value, ',')) else [("createdAt", -1)]
  }

  datatype SpaceListQuery = SpaceListQuery(
    params: seq<Field>,
    status: Option<string>,
    owner: Option<string>,
    layout: Option<string>,
    page: Option<string>,
    limit: Option<string>,
    sort: Option<string>)

  /** The `$match` stage: the rewritten generic filter, the status, the
    * owner (`null` when the id is malformed) and the layout's spaces. */
  datatype Match = Match(
    filterText: string,
    status: Option<string>,
    owner: Option<Option<string>>,
    idIn: Option<seq<nat>>)

  datatype SpaceListPlan =
    | EmptyPage(limit: int)
    | Pipeline(m: Match, sort: seq<(string, int)>, page: int, limit: int, skip: int)

  /** `getGridSpaces` up to the aggregation; `layoutSpaces` is what
    * `GridLayout.findById` returns for a well-formed layout id. */
  function SpaceListPlanOf(q: SpaceListQuery, layoutSpaces: Option<seq<nat>>): (p: SpaceListPlan)
    ensures p.EmptyPage? <==> (Truthy(q.layout)
      && (!IsObjectIdText(q.layout.value) || layoutSpaces.None? || |layoutSpaces.value| == 0))
    ensures p.EmptyPage? ==> p.limit == NumberOr(q.limit, 25)
    ensures p.Pipeline? ==>
      p.m.filterText == Rewrite(Serialize(JObj(RemoveFields(q.params))))
      && (p.m.status.Some? <==> Truthy(q.status))
      && (p.m.owner.Some? <==> Truthy(q.owner))
      && (Truthy(q.owner) ==> (p.m.owner.value.Some? <==> IsObjectIdText(q.owner.value)))
      && (p.m.idIn.Some? <==> Truthy(q.layout))
      && p.page == NumberOr(q.page, 1) && p.limit == NumberOr(q.limit, 25)
      && p.skip == Queries.Skip(p.page, p.limit)
      && p.sort == SortStage(q.sort)
  {
    var filterText := Rewrite(Serialize(JObj(RemoveFields(q.params))));
    var status := if Truthy(q.status) then q.status else None;
    var owner := if Truthy(q.owner) then Some(if IsObjectIdText(q.owner.value) then q.owner else None) else None;
    if Truthy(q.layout) && (!IsObjectIdText(q.layout.value) || layoutSpaces.None? || |layoutSpaces.value| == 0) then
      EmptyPage(NumberOr(q.limit, 25))
    else
      var idIn := if Truthy(q.layout) then layoutSpaces else None;
      var page := NumberOr(q.page, 1);
      var limit := NumberOr(q.limit, 25);
      Pipeline(Match(filterText, status, owner, idIn), SortStage(q.sort), page, limit, Queries.Skip(page, limit))
  }

  datatype SpacePage = SpacePage(page: int, limit: int, totalPages: Option<int>, totalResults: nat)

  /** The page summary once the aggregation has counted `total` matches. */
  function PageOf(p: SpaceListPlan, total: nat): (r: SpacePage)
    ensures p.EmptyPage? ==> r.page == 1 && r.totalPages == Some(0) && r.totalResults == 0
    ensures p.Pipeline? ==> (r.page == p.page && r.totalResults == total
      && r.totalPages == Queries.TotalPages(total, p.limit))
  {
    match p
    case EmptyPage(limit) => SpacePage(1, limit, Some(0), 0)
    case Pipeline(_, _, page, limit, _) => SpacePage(page, limit, Queries.TotalPages(total, limit), total)
  }

  /** With no page or limit the first 25 spaces, newest first, are listed. */
  lemma DefaultPlan(params: seq<Field>)
    ensures var p := SpaceListPlanOf(SpaceListQuery(params, None, None, None, None, None, None), None);
      p.Pipeline? && p.page == 1 && p.limit == 25 && p.skip == 0 && p.sort == [("createdAt", -1)]
      && p.m.status.None? && p.m.owner.None? && p.m.idIn.None?
  {
  }

  // ---------------------------------------------------------------------
  // Counters.

  /** `getGridSpace`: every read of a space counts one impression. */
  method GetGridSpace(db: Db, id: nat, now: int) returns (r: Option<GridSpace>)
    requires db.Valid()
    modifies db
    ensures db.Valid()
    ensures id !in old(db.spaces) ==> r.None? && unchanged(db)
    ensures id in old(db.spaces) ==>
      var s := old(db.spaces)[id];
      r == Some(s.(impressions := s.impressions + 1, updatedAt := now))
      && db.spaces == old(db.spaces)[id := r.value]
      && db.layouts == old(db.layouts) && db.biddings == old(db.biddings)
      && db.transactions == old(db.transactions)
  {
    if id !in db.spaces {
      return None;
    }
    var s := db.spaces[id];
    db.SaveSpace(id, s.(impressions := s.impressions + 1), now);
    r := Some(db.spaces[id]);
  }

  datatype ClickResult = Redirect(url: string) | Recorded

  /** `recordGridSpaceClick`: one click more, and a redirect exactly when
    * the space has a link. */
  method RecordGridSpaceClick(db: Db, id: nat, now: int) returns (r: Outcome<ClickResult>)
    requires db.Valid()
    modifies db
    ensures db.Valid()
    ensures id !in old(db.spaces) ==> r == Fail(NotFound, "Grid space not found") && unchanged(db)
    ensures id in old(db.spaces) ==>
      var s := old(db.spaces)[id];
      db.spaces == old(db.spaces)[id := s.(clicks := s.clicks + 1, updatedAt := now)]
      && db.layouts == old(db.layouts) && db.biddings == old(db.biddings)
      && db.transactions == old(db.transactions)
      && r.Ok? && (r.value.Redirect? <==> Truthy(s.clickUrl))
      && (r.value.Redirect? ==> r.value.url == s.clickUrl.value)
  {
    if id !in db.spaces {
      return Fail(NotFound, "Grid space not found");
    }
    var s := db.spaces[id];
    db.SaveSpace(id, s.(clicks := s.clicks + 1), now);
    if Truthy(s.clickUrl) {
      return Ok(Redirect(s.clickUrl.value));
    }
    r := Ok(Recorded);
  }

  // ---------------------------------------------------------------------
  // "My spaces" and analytics.

  datatype StatusMatch = StatusIs(status: SpaceStatus) | NotBidding

  /** The `find` filter of `getMyGridSpaces`. */
  datatype OwnFilter = OwnFilter(owner: nat, status: StatusMatch, idIn: Option<seq<nat>>)

  const ListableStatuses: seq<string> := ["available", "reserved", "purchased"]

  /** `getMyGridSpaces` up to the `find`; `layoutSpaces` is what
    * `GridLayout.findById` returns for a well-formed layout id. */
  function OwnFilterOf(user: nat, status: Option<string>, layoutId: Option<string>,
                       layoutSpaces: Option<seq<nat>>): (r: Outcome<OwnFilter>)
    ensures Truthy(status) && status.value !in ListableStatuses ==>
      r == Fail(BadRequest, "Invalid status filter: " + status.value)
    ensures r.Ok? ==> (r.value.owner == user
      && (Truthy(status) ==> r.value.status.StatusIs? && StatusName(r.value.status.status) == status.value)
      && (!Truthy(status) ==> r.value.status == NotBidding)
      && (r.value.idIn.Some? <==> Truthy(layoutId)))
    ensures r.Err? && !(Truthy(status) && status.value !in ListableStatuses) ==>
      Truthy(layoutId)
      && (r.error.status == BadRequest <==> !IsObjectIdText(layoutId.value))
      && (r.error.status == NotFound <==> IsObjectIdText(layoutId.value) && layoutSpaces.None?)
  {
    if Truthy(status) && status.value !in ListableStatuses then
      Fail(BadRequest, "Invalid status filter: " + status.value)
    else
      var sm := if Truthy(status) then StatusIs(StatusOfName(status.value).value) else NotBidding;
      if !Truthy(layoutId) then Ok(OwnFilter(user, sm, None))
      else if !IsObjectIdText(layoutId.value) then Fail(BadRequest, "Invalid layout ID: " + layoutId.value)
      else if layoutSpaces.None? then Fail(NotFound, "Layout not found")
      else Ok(OwnFilter(user, sm, layoutSpaces))
  }

  predicate OwnMatches(f: OwnFilter, id: nat, s: GridSpace) {
    s.owner == Some(f.owner)
    && (match f.status
        case StatusIs(st) => s.status == st
        case NotBidding => s.status != InBidding)
    && (f.idIn.Some? ==> id in f.idIn.value)
  }

  /** Without a status a user sees every owned space except those in
    * bidding; with one, exactly the owned spaces in that status.  A space
    * in bidding is never listed. */
  lemma OwnFilterSelects(user: nat, status: Option<string>, id: nat, s: GridSpace)
    requires OwnFilterOf(user, status, None, None).Ok?
    ensures var f := OwnFilterOf(user, status, None, None).value;
      OwnMatches(f, id, s) <==>
        s.owner == Some(user)
        && (if Truthy(status) then StatusName(s.status) == status.value else s.status != InBidding)
    ensures OwnMatches(OwnFilterOf(user, status, None, None).value, id, s) ==> s.status != InBidding
  {
    var f := OwnFilterOf(user, status, None, None).value;
    if Truthy(status) {
      StatusNamesRoundTrip(s.status);
      StatusNamesRoundTrip(f.status.status);
    }
  }

  datatype Analytics = Analytics(totalClicks: int, totalImpressions: int)

  /** `getGridSpaceAnalytics`: the counters, for the owner or an admin. */
  function GridSpaceAnalytics(spaces: map<nat, GridSpace>, id: nat, user: nat, isAdmin: bool): (r: Outcome<Analytics>)
    ensures id !in spaces ==> r == Fail(NotFound, "Grid space not found")
    ensures id in spaces ==>
      (r.Ok? <==> spaces[id].owner == Some(user) || isAdmin)
      && (r.Ok? ==> r.value == Analytics(spaces[id].clicks, spaces[id].impressions))
      && (r.Err? ==> r.error.status == Unauthorized)
  {
    if id !in spaces then Fail(NotFound, "Grid space not found")
    else
      var s := spaces[id];
      if s.owner != Some(user) && !isAdmin then
        Fail(Unauthorized, "Not authorized to view analytics for this grid space")
      else Ok(Analytics(s.clicks, s.impressions))
  }
}
