/**
 * The admin side of the layout marketplace: creating a layout together
 * with its grid of 1 x 1 spaces, resizing it (which regenerates the
 * spaces), deleting it, pricing one of its spaces, and listing an admin's
 * layouts with the latest-purchased first.
 */
module AdminService {
  import opened Wrappers
  import opened Api
  import Text
  import opened GridSpaces
  import opened GridStore
  import Sorting

  // ---------------------------------------------------------------------
  // The grid of cells a layout is made of.

  /** The cells `(0, y)` .. `(n - 1, y)` of row `y`. */
  function Row(y: int, n: nat): (r: seq<(int, int)>)
    ensures |r| == n && forall i :: 0 <= i < n ==> r[i] == (i, y)
  {
    seq(n, i requires 0 <= i < n => (i, y))
  }

  /** The cells the nested loops visit, `y` outer and `x` inner; a bound
    * below 1 runs its loop zero times. */
  function Positions(rows: int, columns: int): seq<(int, int)>
    decreases if rows > 0 then rows else 0
  {
    if rows <= 0 then [] else Positions(rows - 1, columns) + Row(rows - 1, if columns > 0 then columns else 0)
  }

  /** The `k`-th space of a `rows` x `columns` layout sits in column
    * `k % columns` of row `k / columns`, and there are `rows * columns`. */
  lemma {:induction false} PositionsGrid(rows: nat, columns: nat)
    ensures |Positions(rows, columns)| == rows * columns
    ensures forall k :: 0 <= k < rows * columns ==> Positions(rows, columns)[k] == (k % columns, k / columns)
  {
    if rows > 0 {
      PositionsGrid(rows - 1, columns);
      var before := (rows - 1) * columns;
      assert rows * columns == before + columns;
      forall k | 0 <= k < rows * columns
        ensures Positions(rows, columns)[k] == (k % columns, k / columns)
      {
        if k >= before {
          DivModOfRow(rows - 1, columns, k - before);
        }
      }
    }
  }

  lemma DivModOfRow(q: nat, c: nat, i: nat)
    requires i < c
    ensures (q * c + i) / c == q && (q * c + i) % c == i
  {
    var k := q * c + i;
    var d := k / c;
    var m := k % c;
    assert (q - d) * c == m - i by {
      assert d * c + m == q * c + i;
    }
    MulSign(q - d, c);
  }

  /** A nonzero multiple of `c` is at least `c` away from zero. */
  lemma {:induction false} MulSign(a: int, c: nat)
    ensures a >= 1 ==> a * c >= c
    ensures a <= -1 ==> a * c + c <= 0
    decreases if a >= 0 then a else -a
  {
    if a > 1 {
      MulSign(a - 1, c);
      assert a * c == (a - 1) * c + c;
    } else if a < -1 {
      MulSign(a + 1, c);
      assert a * c == (a + 1) * c - c;
    }
  }

  /** The stored spaces after new 1 x 1 spaces at the cells `ps` were
    * created under the ids `start`, `start + 1`, ... on top of `before`. */
  ghost predicate LaidOut(spaces: map<nat, GridSpace>, before: map<nat, GridSpace>, start: nat,
                    ps: seq<(int, int)>, price: Option<real>, now: int) {
    (forall k :: 0 <= k < |ps| ==>
       start + k in spaces && spaces[start + k] == NewSpace(ps[k].0, ps[k].1, 1, 1, price, now))
    && (forall id :: id in spaces <==> id in before || start <= id < start + |ps|)
    && (forall id :: id in before ==> spaces[id] == before[id])
  }

  /** The ids `start`, `start + 1`, ... of `n` new spaces. */
  function Ids(start: nat, n: nat): (r: seq<nat>)
    ensures |r| == n && forall k :: 0 <= k < n ==> r[k] == start + k
  {
    seq(n, k requires 0 <= k < n => start + k)
  }

  /** `before` with new 1 x 1 spaces at the cells `ps` stored under the
    * ids `start`, `start + 1`, ... in turn. */
  function Extend(before: map<nat, GridSpace>, start: nat, ps: seq<(int, int)>, price: Option<real>, now: int)
    : map<nat, GridSpace>
    decreases |ps|
  {
    if |ps| == 0 then before
    else
      var n := |ps| - 1;
      Extend(before, start, ps[..n], price, now)[start + n := NewSpace(ps[n].0, ps[n].1, 1, 1, price, now)]
  }

  /** When every old id is below `start`, extending lays out exactly the
    * new cells and keeps every old space. */
  lemma {:induction false} ExtendLaidOut(before: map<nat, GridSpace>, start: nat, ps: seq<(int, int)>,
                                         price: Option<real>, now: int)
    requires forall id :: id in before ==> id < start
    ensures LaidOut(Extend(before, start, ps, price, now), before, start, ps, price, now)
    decreases |ps|
  {
    if |ps| > 0 {
      var n := |ps| - 1;
      ExtendLaidOut(before, start, ps[..n], price, now);
    }
  }

  /** Extending by one more cell stores it under the next id. */
  lemma ExtendStep(before: map<nat, GridSpace>, start: nat, ps: seq<(int, int)>, p: (int, int),
                   price: Option<real>, now: int)
    ensures Extend(before, start, ps + [p], price, now)
      == Extend(before, start, ps, price, now)[start + |ps| := NewSpace(p.0, p.1, 1, 1, price, now)]
  {
    assert (ps + [p])[..|ps|] == ps;
  }

  /** Extending by `ps` and then by `qs` is extending by `ps + qs`. */
  lemma {:induction false} ExtendAppend(before: map<nat, GridSpace>, start: nat, ps: seq<(int, int)>,
                                        qs: seq<(int, int)>, price: Option<real>, now: int)
    ensures Extend(Extend(before, start, ps, price, now), start + |ps|, qs, price, now)
      == Extend(before, start, ps + qs, price, now)
    decreases |qs|
  {
    if |qs| > 0 {
      var n := |qs| - 1;
      ExtendAppend(before, start, ps, qs[..n], price, now);
      assert ps + qs == (ps + qs[..n]) + [qs[n]];
      ExtendStep(before, start, ps + qs[..n], qs[n], price, now);
    } else {
      assert ps + qs == ps;
    }
  }

  lemma IdsAppend(start: nat, n: nat, m: nat)
    ensures Ids(start, n) + Ids(start + n, m) == Ids(start, n + m)
  {
  }

  /** The inner `for` loop: one space per column of row `y`. */
  method AddRow(db: Db, y: int, cols: nat, price: Option<real>, now: int) returns (ids: seq<nat>)
    requires db.Valid()
    modifies db
    ensures db.Valid()
    ensures ids == Ids(old(db.nextId), cols) && db.nextId == old(db.nextId) + cols
    ensures db.spaces == Extend(old(db.spaces), old(db.nextId), Row(y, cols), price, now)
    ensures db.layouts == old(db.layouts) && db.biddings == old(db.biddings)
    ensures db.transactions == old(db.transactions)
  {
    ids := [];
    var x := 0;
    while x < cols
      invariant 0 <= x <= cols
      invariant db.Valid() && db.nextId == old(db.nextId) + x && ids == Ids(old(db.nextId), x)
      invariant db.spaces == Extend(old(db.spaces), old(db.nextId), Row(y, x), price, now)
      invariant db.layouts == old(db.layouts) && db.biddings == old(db.biddings)
      invariant db.transactions == old(db.transactions)
    {
      var id := db.CreateSpace(NewSpace(x, y, 1, 1, price, now));
      ids := ids + [id];
      assert Row(y, x + 1) == Row(y, x) + [(x, y)];
      ExtendStep(old(db.spaces), old(db.nextId), Row(y, x), (x, y), price, now);
      x := x + 1;
    }
  }

  /** The nested `for` loops that create one space per cell. */
  method GenerateSpaces(db: Db, rows: int, columns: int, price: Option<real>, now: int) returns (ids: seq<nat>)
    requires db.Valid()
    modifies db
    ensures db.Valid()
    ensures ids == Ids(old(db.nextId), |Positions(rows, columns)|)
    ensures db.nextId == old(db.nextId) + |ids|
    ensures db.spaces == Extend(old(db.spaces), old(db.nextId), Positions(rows, columns), price, now)
    ensures db.layouts == old(db.layouts) && db.biddings == old(db.biddings)
    ensures db.transactions == old(db.transactions)
  {
    var cols := if columns > 0 then columns else 0;
    ids := [];
    var y := 0;
    while y < rows
      invariant 0 <= y && (rows > 0 ==> y <= rows) && (rows <= 0 ==> y == 0)
      invariant db.Valid() && db.nextId == old(db.nextId) + |ids| && ids == Ids(old(db.nextId), |Positions(y, columns)|)
      invariant db.spaces == Extend(old(db.spaces), old(db.nextId), Positions(y, columns), price, now)
      invariant db.layouts == old(db.layouts) && db.biddings == old(db.biddings)
      invariant db.transactions == old(db.transactions)
    {
      var row := AddRow(db, y, cols, price, now);
      ExtendAppend(old(db.spaces), old(db.nextId), Positions(y, columns), Row(y, cols), price, now);
      IdsAppend(old(db.nextId), |ids|, cols);
      ids := ids + row;
      assert Positions(y + 1, columns) == Positions(y, columns) + Row(y, cols);
      y := y + 1;
    }
    assert Positions(y, columns) == Positions(rows, columns);
  }

  // ---------------------------------------------------------------------
  // Creating, resizing and deleting layouts.

  /** The stored form of a layout name: the schema trims it. */
  function StoredName(name: Option<string>): Option<string> {
    if name.Some? then Some(Text.Trim(name.value)) else None
  }

  /** The unique index on `(name, createdBy)`: a layout of the same user
    * with the same name, a missing name counting as one value. */
  predicate NameTaken(layouts: map<nat, GridLayout>, name: Option<string>, user: nat, except: Option<nat>) {
    exists lid :: lid in layouts && Some(lid) != except && layouts[lid].name == name && layouts[lid].createdBy == user
  }

  const PricePerNewSpace: real := 9999.0

  /** `createGridLayout`: the layout, then one space priced 9999 per cell. */
  method CreateGridLayout(db: Db, name: Option<string>, rows: int, columns: int, user: nat, now: int)
    returns (r: Outcome<nat>)
    requires db.Valid()
    modifies db
    ensures db.Valid()
    ensures NameTaken(old(db.layouts), StoredName(name), user, None) ==>
      r == Fail(BadRequest, "A layout with this name already exists for this user.") && unchanged(db)
    ensures !NameTaken(old(db.layouts), StoredName(name), user, None) ==>
      (r.Ok? && r.value == old(db.nextId) && r.value !in old(db.layouts)
      && db.layouts == old(db.layouts)[r.value := GridLayout(StoredName(name), rows, columns, true,
                                         Ids(r.value + 1, |Positions(rows, columns)|), user, now)]
      && db.spaces == Extend(old(db.spaces), r.value + 1, Positions(rows, columns), Some(PricePerNewSpace), now)
      && db.biddings == old(db.biddings) && db.transactions == old(db.transactions))
  {
    if NameTaken(db.layouts, StoredName(name), user, None) {
      return Fail(BadRequest, "A layout with this name already exists for this user.");
    }
    var id := StoreLayout(db, GridLayout(StoredName(name), rows, columns, true, [], user, now));
    r := Ok(id);
  }

  /** `GridLayout.create`, the spaces of its grid, then `layout.save()`
    * with their ids. */
  method StoreLayout(db: Db, l: GridLayout) returns (id: nat)
    requires db.Valid()
    modifies db
    ensures db.Valid() && id == old(db.nextId) && id !in old(db.layouts)
    ensures db.layouts == old(db.layouts)[id := l.(spaces := Ids(id + 1, |Positions(l.rows, l.columns)|))]
    ensures db.spaces == Extend(old(db.spaces), id + 1, Positions(l.rows, l.columns), Some(PricePerNewSpace), l.createdAt)
    ensures db.biddings == old(db.biddings) && db.transactions == old(db.transactions)
  {
    id := db.CreateLayout(l);
    ghost var l0 := db.layouts;
    var ids := GenerateSpaces(db, l.rows, l.columns, Some(PricePerNewSpace), l.createdAt);
    assert db.layouts == l0;
    db.SaveLayout(id, l.(spaces := ids));
  }

  /** The keys of an update body that the layout schema declares;
    * `Object.assign` copies each one that is present, including the space
    * list, the creator and the creation time. */
  datatype LayoutUpdate = LayoutUpdate(name: Option<string>, rows: Option<int>, columns: Option<int>,
                                       isActive: Option<bool>, spaces: Option<seq<nat>>,
                                       createdBy: Option<nat>, createdAt: Option<int>)

  /** `Object.assign(layout, updateBody)`. */
  function Assigned(l: GridLayout, u: LayoutUpdate): (a: GridLayout)
    ensures a.name == (if u.name.Some? then StoredName(u.name) else l.name)
    ensures a.rows == u.rows.GetOr(l.rows) && a.columns == u.columns.GetOr(l.columns)
    ensures a.isActive == u.isActive.GetOr(l.isActive) && a.spaces == u.spaces.GetOr(l.spaces)
    ensures a.createdBy == u.createdBy.GetOr(l.createdBy) && a.createdAt == u.createdAt.GetOr(l.createdAt)
  {
    l.(name := if u.name.Some? then StoredName(u.name) else l.name,
       rows := u.rows.GetOr(l.rows), columns := u.columns.GetOr(l.columns),
       isActive := u.isActive.GetOr(l.isActive), spaces := u.spaces.GetOr(l.spaces),
       createdBy := u.createdBy.GetOr(l.createdBy), createdAt := u.createdAt.GetOr(l.createdAt))
  }

  /** An empty body changes nothing, and assigning the same body twice is
    * assigning it once. */
  lemma AssignedIdempotent(l: GridLayout, u: LayoutUpdate)
    ensures Assigned(Assigned(l, u), u) == Assigned(l, u)
    ensures u == LayoutUpdate(None, None, None, None, None, None, None) ==> Assigned(l, u) == l
  {
  }

  /** `rowsChanged || columnsChanged`: a truthy count that differs.  A
    * count of 0 is falsy, so it is assigned without regenerating. */
  predicate Resized(l: GridLayout, u: LayoutUpdate) {
    (u.rows.Some? && u.rows.value != 0 && u.rows.value != l.rows)
    || (u.columns.Some? && u.columns.value != 0 && u.columns.value != l.columns)
  }

  /** The stored spaces without those listed. */
  function Without(spaces: map<nat, GridSpace>, ids: seq<nat>): map<nat, GridSpace> {
    map id | id in spaces && id !in ids :: spaces[id]
  }

  /** The error a save that breaks the unique index fails with; the
    * driver's full message is not modelled. */
  const DuplicateKey: string := "E11000 duplicate key error"

  /** `updateGridLayout`.  A resize deletes the old spaces and creates the
    * new ones before the layout is saved, so when the save then breaks
    * the unique name index the old spaces are gone and the new ones are
    * referenced by no layout. */
  method UpdateGridLayout(db: Db, id: nat, u: LayoutUpdate, user: nat, now: int) returns (r: Outcome<GridLayout>)
    requires db.Valid()
    modifies db
    ensures db.Valid()
    ensures id !in old(db.layouts) ==> r == Fail(NotFound, "Layout not found") && unchanged(db)
    ensures id in old(db.layouts) && old(db.layouts)[id].createdBy != user ==>
      r == Fail(Forbidden, "Not authorized to update this layout") && unchanged(db)
    ensures id in old(db.layouts) && old(db.layouts)[id].createdBy == user ==>
      var l := old(db.layouts)[id];
      var a := Assigned(l, u);
      var ps := Positions(a.rows, a.columns);
      (Resized(l, u) ==>
         db.spaces == Extend(Without(old(db.spaces), a.spaces), old(db.nextId), ps, None, now))
      && (!Resized(l, u) ==> db.spaces == old(db.spaces))
      && (NameTaken(old(db.layouts), a.name, a.createdBy, Some(id)) ==>
            r == Fail(ServerError, DuplicateKey) && db.layouts == old(db.layouts))
      && (!NameTaken(old(db.layouts), a.name, a.createdBy, Some(id)) ==>
            (r.Ok? && db.layouts == old(db.layouts)[id := r.value]
             && r.value == (if Resized(l, u) then a.(spaces := Ids(old(db.nextId), |ps|)) else a)))
      && db.biddings == old(db.biddings) && db.transactions == old(db.transactions)
  {
    if id !in db.layouts {
      return Fail(NotFound, "Layout not found");
    }
    var l := db.layouts[id];
    if l.createdBy != user {
      return Fail(Forbidden, "Not authorized to update this layout");
    }
    var resized := Resized(l, u);
    var a := Assigned(l, u);
    if resized {
      var ids := Regenerate(db, a.spaces, a.rows, a.columns, now);
      a := a.(spaces := ids);
    }
    if NameTaken(db.layouts, a.name, a.createdBy, Some(id)) {
      return Fail(ServerError, DuplicateKey);
    }
    db.SaveLayout(id, a);
    r := Ok(a);
  }

  /** The resize branch of `updateGridLayout`: the listed spaces are
    * deleted and a fresh, unpriced grid is created. */
  method Regenerate(db: Db, stale: seq<nat>, rows: int, columns: int, now: int) returns (ids: seq<nat>)
    requires db.Valid()
    modifies db
    ensures db.Valid()
    ensures ids == Ids(old(db.nextId), |Positions(rows, columns)|)
    ensures db.spaces == Extend(Without(old(db.spaces), stale), old(db.nextId), Positions(rows, columns), None, now)
    ensures db.layouts == old(db.layouts) && db.biddings == old(db.biddings)
    ensures db.transactions == old(db.transactions)
  {
    db.DeleteSpaces(stale);
    assert db.spaces == Without(old(db.spaces), stale);
    ids := GenerateSpaces(db, rows, columns, None, now);
  }

  /** `deleteGridLayout`: the layout and every space it lists. */
  method DeleteGridLayout(db: Db, id: nat, user: nat) returns (r: Outcome<()>)
    requires db.Valid()
    modifies db
    ensures db.Valid()
    ensures id !in old(db.layouts) ==> r == Fail(NotFound, "Layout not found") && unchanged(db)
    ensures id in old(db.layouts) && old(db.layouts)[id].createdBy != user ==>
      r == Fail(Forbidden, "Not authorized to delete this layout") && unchanged(db)
    ensures id in old(db.layouts) && old(db.layouts)[id].createdBy == user ==>
      (r.Ok? && db.spaces == Without(old(db.spaces), old(db.layouts)[id].spaces)
      && db.layouts == old(db.layouts) - {id}
      && db.biddings == old(db.biddings) && db.transactions == old(db.transactions))
  {
    if id !in db.layouts {
      return Fail(NotFound, "Layout not found");
    }
    var l := db.layouts[id];
    if l.createdBy != user {
      return Fail(Forbidden, "Not authorized to delete this layout");
    }
    db.DeleteSpaces(l.spaces);
    db.DeleteLayout(id);
    r := Ok(());
  }

  // ---------------------------------------------------------------------
  // Pricing one space.

  /** Some layout of the user lists the space
    * (`GridLayout.findOne({ spaces: id, createdBy: userId })`). */
  predicate InOwnLayout(layouts: map<nat, GridLayout>, user: nat, id: nat) {
    exists lid :: lid in layouts && layouts[lid].createdBy == user && id in layouts[lid].spaces
  }

  /** The outcome of `updateGridSpacePrice`.  A layout may list a space
    * that no longer exists; reading its status then throws a `TypeError`. */
  function PriceUpdate(layouts: map<nat, GridLayout>, spaces: map<nat, GridSpace>, id: nat,
                       price: Option<real>, user: nat, now: int): (r: Outcome<GridSpace>)
    ensures r.Ok? <==>
      price.Some? && InOwnLayout(layouts, user, id) && id in spaces
      && spaces[id].status == Available && spaces[id].owner.None?
    ensures r.Ok? ==> r.value == spaces[id].(price := price, updatedAt := now)
    ensures price.None? ==> r == Fail(BadRequest, "Please provide a price")
    ensures price.Some? && !InOwnLayout(layouts, user, id) ==>
      r == Fail(NotFound, "Grid space not found or not authorized")
    ensures price.Some? && InOwnLayout(layouts, user, id) && id in spaces && !r.Ok? ==>
      r == Fail(BadRequest, "Cannot update price: slot is no longer available")
  {
    if price.None? then Fail(BadRequest, "Please provide a price")
    else if !InOwnLayout(layouts, user, id) then Fail(NotFound, "Grid space not found or not authorized")
    else if id !in spaces then Fail(ServerError, "Cannot read properties of null (reading 'status')")
    else if spaces[id].status != Available || spaces[id].owner.Some? then
      Fail(BadRequest, "Cannot update price: slot is no longer available")
    else Ok(spaces[id].(price := price, updatedAt := now))
  }

  /** Once a space is sold, reserved or in bidding its price is frozen. */
  lemma PriceFrozenOnceTaken(layouts: map<nat, GridLayout>, spaces: map<nat, GridSpace>, id: nat,
                             price: real, user: nat, now: int)
    requires id in spaces && (spaces[id].status != Available || spaces[id].owner.Some?)
    ensures PriceUpdate(layouts, spaces, id, Some(price), user, now).Err?
  {
  }

  /** `updateGridSpacePrice`: only the price changes (and the save stamp). */
  method UpdateGridSpacePrice(db: Db, id: nat, price: Option<real>, user: nat, now: int) returns (r: Outcome<GridSpace>)
    requires db.Valid()
    modifies db
    ensures db.Valid()
    ensures r == PriceUpdate(old(db.layouts), old(db.spaces), id, price, user, now)
    ensures r.Err? ==> unchanged(db)
    ensures r.Ok? ==> (db.spaces == old(db.spaces)[id := r.value]
      && db.layouts == old(db.layouts) && db.biddings == old(db.biddings)
      && db.transactions == old(db.transactions))
  {
    r := PriceUpdate(db.layouts, db.spaces, id, price, user, now);
    if r.Ok? {
      db.SaveSpace(id, r.value, now);
    }
  }

  // ---------------------------------------------------------------------
  // Listing an admin's layouts.

  const FilterStatuses: seq<string> := ["available", "reserved", "bidding"]

  /** A layout with its populated spaces. */
  datatype LayoutWithSpaces = LayoutWithSpaces(id: nat, layout: GridLayout, spaces: seq<(nat, GridSpace)>)

  /** `populate({ path: "spaces", match })`: the listed spaces that exist
    * and, under a status filter, have that status. */
  function PopulateMatching(ids: seq<nat>, spaces: map<nat, GridSpace>, st: Option<SpaceStatus>)
    : (r: seq<(nat, GridSpace)>)
    ensures |r| <= |ids|
    ensures forall p :: p in r ==> p.0 in spaces && p.1 == spaces[p.0] && (st.Some? ==> p.1.status == st.value)
    decreases |ids|
  {
    if |ids| == 0 then []
    else
      var rest := PopulateMatching(ids[..|ids| - 1], spaces, st);
      var id := ids[|ids| - 1];
      if id in spaces && (st.None? || spaces[id].status == st.value) then rest + [(id, spaces[id])] else rest
  }

  /** The latest purchase time among the purchased spaces that carry one,
    * or 0 (`new Date(0)`).  No handler of the model writes `purchasedAt`,
    * so the times come from the stored documents as an input. */
  function LatestPurchase(ps: seq<(nat, GridSpace)>, purchasedAt: map<nat, int>): (t: int)
    ensures !HasPurchase(ps, purchasedAt) ==> t == 0
    ensures forall k :: 0 <= k < |ps| && ps[k].1.status == Purchased && ps[k].0 in purchasedAt ==>
      purchasedAt[ps[k].0] <= t
    decreases |ps|
  {
    if |ps| == 0 then 0
    else
      var rest := LatestPurchase(ps[..|ps| - 1], purchasedAt);
      var p := ps[|ps| - 1];
      if p.1.status == Purchased && p.0 in purchasedAt then
        var here := purchasedAt[p.0];
        if !HasPurchase(ps[..|ps| - 1], purchasedAt) || here > rest then here else rest
      else rest
  }

  /** Some purchased space carries a purchase time. */
  predicate HasPurchase(ps: seq<(nat, GridSpace)>, purchasedAt: map<nat, int>) {
    exists k :: 0 <= k < |ps| && ps[k].1.status == Purchased && ps[k].0 in purchasedAt
  }

  function SortKey(purchasedAt: map<nat, int>): LayoutWithSpaces -> Sorting.Key {
    (l: LayoutWithSpaces) => Sorting.Key(LatestPurchase(l.spaces, purchasedAt), 0)
  }

  /** The admin's active layouts in stored order, each populated. */
  function OwnLayouts(layouts: seq<(nat, GridLayout)>, spaces: map<nat, GridSpace>, user: nat,
                      st: Option<SpaceStatus>): (r: seq<LayoutWithSpaces>)
    ensures |r| <= |layouts|
    ensures forall x :: x in r ==> x.layout.isActive && x.layout.createdBy == user
    decreases |layouts|
  {
    if |layouts| == 0 then []
    else
      var rest := OwnLayouts(layouts[..|layouts| - 1], spaces, user, st);
      var (id, l) := layouts[|layouts| - 1];
      if l.isActive && l.createdBy == user then rest + [LayoutWithSpaces(id, l, PopulateMatching(l.spaces, spaces, st))]
      else rest
  }

  /** `getGridLayoutsWithSpaces`: `layouts` in their stored order. */
  function LayoutsWithSpaces(layouts: seq<(nat, GridLayout)>, spaces: map<nat, GridSpace>, user: nat,
                             status: Option<string>, purchasedAt: map<nat, int>): (r: Outcome<seq<LayoutWithSpaces>>)
    ensures Truthy(status) && status.value !in FilterStatuses ==> r == Fail(BadRequest, "Invalid status: " + status.value)
    ensures !(Truthy(status) && status.value !in FilterStatuses) ==> r.Ok?
  {
    if Truthy(status) && status.value !in FilterStatuses then Fail(BadRequest, "Invalid status: " + status.value)
    else
      var st := if Truthy(status) then StatusOfName(status.value) else None;
      Ok(Sorting.SortDesc(OwnLayouts(layouts, spaces, user, st), SortKey(purchasedAt)))
  }

  /** The listing holds the admin's active layouts, latest purchase
    * first, and layouts with equal latest purchase keep their stored
    * order. */
  lemma LayoutsWithSpacesSpec(layouts: seq<(nat, GridLayout)>, spaces: map<nat, GridSpace>, user: nat,
                              status: Option<string>, purchasedAt: map<nat, int>, k: Sorting.Key)
    requires LayoutsWithSpaces(layouts, spaces, user, status, purchasedAt).Ok?
    ensures var r := LayoutsWithSpaces(layouts, spaces, user, status, purchasedAt).value;
      var st := if Truthy(status) then StatusOfName(status.value) else None;
      var own := OwnLayouts(layouts, spaces, user, st);
      multiset(r) == multiset(own)
      && Sorting.SortedDesc(r, SortKey(purchasedAt))
      && Sorting.WithKey(r, SortKey(purchasedAt), k) == Sorting.WithKey(own, SortKey(purchasedAt), k)
  {
    var st := if Truthy(status) then StatusOfName(status.value) else None;
    var own := OwnLayouts(layouts, spaces, user, st);
    Sorting.SortDescPerm(own, SortKey(purchasedAt));
    Sorting.SortDescSorted(own, SortKey(purchasedAt));
    Sorting.SortDescStable(own, SortKey(purchasedAt), k);
  }

  lemma {:induction false} WithKeyAll<T>(s: seq<T>, key: T -> Sorting.Key, k: Sorting.Key)
    requires forall i :: 0 <= i < |s| ==> key(s[i]) == k
    ensures Sorting.WithKey(s, key, k) == s
    decreases |s|
  {
    if |s| > 0 {
      WithKeyAll(s[..|s| - 1], key, k);
    }
  }

  /** A status filter never lets a purchased space through, so under one
    * the listing is the stored order; the same holds when no purchased
    * space carries a purchase time. */
  lemma FilteredListingKeepsOrder(layouts: seq<(nat, GridLayout)>, spaces: map<nat, GridSpace>, user: nat,
                                  status: Option<string>, purchasedAt: map<nat, int>)
    requires LayoutsWithSpaces(layouts, spaces, user, status, purchasedAt).Ok?
    requires Truthy(status) || purchasedAt == map[]
    ensures var st := if Truthy(status) then StatusOfName(status.value) else None;
      LayoutsWithSpaces(layouts, spaces, user, status, purchasedAt).value == OwnLayouts(layouts, spaces, user, st)
  {
    var st := if Truthy(status) then StatusOfName(status.value) else None;
    var own := OwnLayouts(layouts, spaces, user, st);
    var key := SortKey(purchasedAt);
    var zero := Sorting.Key(0, 0);
    assert st.Some? ==> st.value != Purchased;
    forall i | 0 <= i < |own|
      ensures key(own[i]) == zero
    {
      var x := own[i];
      assert x in own;
      forall j | 0 <= j < |x.spaces|
        ensures x.spaces[j].1.status != Purchased || x.spaces[j].0 !in purchasedAt
      {
        OwnLayoutsPopulated(layouts, spaces, user, st, x);
        assert x.spaces[j] in x.spaces;
      }
    }
    var r := Sorting.SortDesc(own, key);
    Sorting.SortDescMembers(own, key);
    forall i | 0 <= i < |r|
      ensures key(r[i]) == zero
    {
      assert r[i] in own;
    }
    Sorting.SortDescStable(own, key, zero);
    WithKeyAll(own, key, zero);
    WithKeyAll(r, key, zero);
  }

  /** The spaces of a listed layout passed the populate filter. */
  lemma {:induction false} OwnLayoutsPopulated(layouts: seq<(nat, GridLayout)>, spaces: map<nat, GridSpace>,
                                               user: nat, st: Option<SpaceStatus>, x: LayoutWithSpaces)
    requires x in OwnLayouts(layouts, spaces, user, st)
    ensures x.spaces == PopulateMatching(x.layout.spaces, spaces, st)
    decreases |layouts|
  {
    var n := |layouts| - 1;
    if x !in OwnLayouts(layouts[..n], spaces, user, st) {
      assert x == LayoutWithSpaces(layouts[n].0, layouts[n].1, PopulateMatching(layouts[n].1.spaces, spaces, st));
    } else {
      OwnLayoutsPopulated(layouts[..n], spaces, user, st, x);
    }
  }
}
