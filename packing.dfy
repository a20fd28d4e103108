/**
 * The placement rule of the brand-block grid, stated on values.
 *
 * The grid is 20 columns wide and unbounded downwards.  An occupancy is the
 * list of row keys in the order the rows were created, together with the set
 * of claimed cells `(row, col)`.  A block of width `w` and height `h` is placed at the
 * first `(y, x)` in row-major order, `y` from 0 to the highest created row
 * plus `h` and `x` from 0 to `20 - w`, whose `w` by `h` cells are all
 * unclaimed.  Blocks are placed one after the other and the i-th placed
 * block receives the ordinal `i + 1`.
 */
module Packing {
  import opened Wrappers

  const Columns: int := 20

  type Cell = (int, int)

  datatype Occupancy = Occupancy(rows: seq<int>, taken: set<Cell>)

  const Empty: Occupancy := Occupancy([], {})

  /** A block to place: its document id and its dimensions. */
  datatype Piece = Piece(id: nat, w: int, h: int)

  /** The fields the reflow writes back for one block. */
  datatype Placement = Placement(id: nat, x: int, y: int, xEnd: int, yEnd: int, orderNum: int)

  /** Highest created row, or 0 when no row exists (`Math.max` over the
    * row keys). */
  function MaxRow(rows: seq<int>): (m: int)
    ensures |rows| == 0 ==> m == 0
    ensures |rows| > 0 ==> m in rows && forall r :: r in rows ==> r <= m
    decreases |rows|
  {
    if |rows| == 0 then 0
    else if |rows| == 1 then rows[0]
    else
      var m := MaxRow(rows[..|rows| - 1]);
      var last := rows[|rows| - 1];
      assert rows == rows[..|rows| - 1] + [last];
      if last > m then last else m
  }

  /** The row keys after creating row `r`: appended unless it exists. */
  function AddRow(rows: seq<int>, r: int): (rs: seq<int>)
    ensures forall q :: q in rs <==> q in rows || q == r
  {
    if r in rows then rows else rows + [r]
  }

  /** The row keys after creating rows `y` to `y + h - 1` in order. */
  function AddRows(rows: seq<int>, y: int, h: int): (rs: seq<int>)
    ensures forall r :: r in rs <==> r in rows || y <= r < y + h
    decreases h
  {
    if h <= 0 then rows else AddRow(AddRows(rows, y, h - 1), y + h - 1)
  }

  function Rect(x: int, y: int, w: int, h: int): set<Cell> {
    set r, c | y <= r < y + h && x <= c < x + w :: (r, c)
  }

  /** No cell of the `w` by `h` rectangle at `(x, y)` is claimed. */
  predicate Fits(o: Occupancy, x: int, y: int, w: int, h: int) {
    forall r, c :: y <= r < y + h && x <= c < x + w ==> (r, c) !in o.taken
  }

  /** Creates the rows of the rectangle and claims its cells. */
  function Claim(o: Occupancy, x: int, y: int, w: int, h: int): Occupancy {
    Occupancy(AddRows(o.rows, y, h), o.taken + Rect(x, y, w, h))
  }

  /** Claiming one more row of a rectangle creates that row and claims its
    * cells; claiming no rows changes nothing. */
  lemma ClaimNextRow(o: Occupancy, x: int, y: int, w: int, k: nat)
    ensures Claim(o, x, y, w, 0) == o
    ensures var mid := Claim(o, x, y, w, k);
      Claim(o, x, y, w, k + 1) == Occupancy(AddRow(mid.rows, y + k), mid.taken + Rect(x, y + k, w, 1))
  {
    assert Rect(x, y, w, 0) == {};
    assert Rect(x, y, w, k + 1) == Rect(x, y, w, k) + Rect(x, y + k, w, 1);
  }

  /** A claim of no rows or no columns claims no cell. */
  lemma ClaimEmpty(o: Occupancy, x: int, y: int, w: int, h: int)
    requires h <= 0
    ensures Claim(o, x, y, w, h) == o
  {
    assert Rect(x, y, w, h) == {};
  }

  /** The first `x >= x0` in row `y` where the block fits.  Its
    * properties are stated in `FirstFitInRowSpec`. */
  function FirstFitInRow(o: Occupancy, y: int, x0: int, w: int, h: int): (r: Option<int>)
    ensures r.Some? ==> x0 <= r.value <= Columns - w
    decreases Columns - w - x0 + 1
  {
    if x0 > Columns - w then None
    else if Fits(o, x0, y, w, h) then Some(x0)
    else FirstFitInRow(o, y, x0 + 1, w, h)
  }

  /** The row scan finds a free position, no earlier position of the row is
    * free, and when it finds none no position from `x0` on is free. */
  lemma {:induction false} FirstFitInRowSpec(o: Occupancy, y: int, x0: int, w: int, h: int)
    ensures var r := FirstFitInRow(o, y, x0, w, h);
      (r.Some? ==> Fits(o, r.value, y, w, h))
      && (r.Some? ==> forall x :: x0 <= x < r.value ==> !Fits(o, x, y, w, h))
      && (r.None? ==> forall x :: x0 <= x <= Columns - w ==> !Fits(o, x, y, w, h))
    decreases Columns - w - x0 + 1
  {
    if x0 <= Columns - w && !Fits(o, x0, y, w, h) {
      FirstFitInRowSpec(o, y, x0 + 1, w, h);
    }
  }

  /** The first `(x, y)` with `y0 <= y <= limit` in row-major order where the
    * block fits.  Its properties are stated in `FirstFitSpec`. */
  function FirstFit(o: Occupancy, y0: int, limit: int, w: int, h: int): (r: Option<(int, int)>)
    ensures r.Some? ==> y0 <= r.value.1 <= limit && 0 <= r.value.0 <= Columns - w
    decreases limit - y0 + 1
  {
    if y0 > limit then None
    else
      match FirstFitInRow(o, y0, 0, w, h)
      case Some(x) => Some((x, y0))
      case None => FirstFit(o, y0 + 1, limit, w, h)
  }

  /** The row-major scan finds a free position and no earlier position of
    * the scan is free; when it finds none, no position in rows `y0` to
    * `limit` is free. */
  lemma {:induction false} FirstFitSpec(o: Occupancy, y0: int, limit: int, w: int, h: int)
    ensures var r := FirstFit(o, y0, limit, w, h);
      (r.Some? ==> Fits(o, r.value.0, r.value.1, w, h))
      && (r.Some? ==> forall y, x :: y0 <= y < r.value.1 && 0 <= x <= Columns - w ==> !Fits(o, x, y, w, h))
      && (r.Some? ==> forall x :: 0 <= x < r.value.0 ==> !Fits(o, x, r.value.1, w, h))
      && (r.None? ==> forall y, x :: y0 <= y <= limit && 0 <= x <= Columns - w ==> !Fits(o, x, y, w, h))
    decreases limit - y0 + 1
  {
    if y0 <= limit {
      FirstFitInRowSpec(o, y0, 0, w, h);
      if FirstFitInRow(o, y0, 0, w, h).None? {
        FirstFitSpec(o, y0 + 1, limit, w, h);
      }
    }
  }

  /** Where the next block goes: scan rows 0 to the highest created row plus
    * `h`. */
  function Place(o: Occupancy, w: int, h: int): Option<(int, int)> {
    FirstFit(o, 0, MaxRow(o.rows) + h, w, h)
  }

  /** Places one more block, the `n`-th, after the placements `ps` that
    * produced the occupancy `o`. */
  function Step(o: Occupancy, ps: seq<Placement>, p: Piece, n: int): Result<(Occupancy, seq<Placement>), nat> {
    match Place(o, p.w, p.h)
    case None => Err(p.id)
    case Some((x, y)) =>
      Ok((Claim(o, x, y, p.w, p.h), ps + [Placement(p.id, x, y, x + p.w, y + p.h, n)]))
  }

  /** Places `pieces` in order on an empty grid; `Err(id)` names the first
    * block for which no position exists. */
  function Run(pieces: seq<Piece>): Result<(Occupancy, seq<Placement>), nat>
    decreases |pieces|
  {
    if |pieces| == 0 then Ok((Empty, []))
    else
      var prev := Run(pieces[..|pieces| - 1]);
      if prev.Err? then prev
      else Step(prev.value.0, prev.value.1, pieces[|pieces| - 1], |pieces|)
  }

  /** A step with a position claims it and appends its placement. */
  lemma StepPlaced(o: Occupancy, ps: seq<Placement>, p: Piece, n: int, x: int, y: int)
    requires Place(o, p.w, p.h) == Some((x, y))
    ensures Step(o, ps, p, n) == Ok((Claim(o, x, y, p.w, p.h), ps + [Placement(p.id, x, y, x + p.w, y + p.h, n)]))
  {
  }

  /** Extending a successful prefix by one block that has a position. */
  lemma RunNext(pieces: seq<Piece>, i: nat, o: Occupancy, ps: seq<Placement>, x: int, y: int,
                o': Occupancy, ps': seq<Placement>)
    requires i < |pieces| && Run(pieces[..i]) == Ok((o, ps))
    requires Place(o, pieces[i].w, pieces[i].h) == Some((x, y))
    requires o' == Claim(o, x, y, pieces[i].w, pieces[i].h)
    requires ps' == ps + [Placement(pieces[i].id, x, y, x + pieces[i].w, y + pieces[i].h, i + 1)]
    ensures Run(pieces[..i + 1]) == Ok((o', ps'))
  {
    var q, p := pieces[..i + 1], pieces[i];
    assert q[..|q| - 1] == pieces[..i];
    assert q[|q| - 1] == p;
    StepPlaced(o, ps, p, i + 1, x, y);
    assert Step(o, ps, p, i + 1) == Ok((o', ps'));
    assert Run(q) == Step(o, ps, p, i + 1);
  }

  /** A block without a position after a successful prefix fails the run. */
  lemma RunStuck(pieces: seq<Piece>, i: nat)
    requires i < |pieces| && Run(pieces[..i]).Ok?
    requires Place(Run(pieces[..i]).value.0, pieces[i].w, pieces[i].h).None?
    ensures Run(pieces) == Err(pieces[i].id)
  {
    assert pieces[..i + 1][..i] == pieces[..i];
    RunErrSticks(pieces, i + 1);
  }

  /** Every claimed cell lies in a created row and rows are never negative. */
  ghost predicate Wf(o: Occupancy) {
    (forall r :: r in o.rows ==> r >= 0)
    && (forall r, c :: (r, c) in o.taken ==> r in o.rows)
  }

  function PlacementCells(p: Placement): set<Cell> {
    Rect(p.x, p.y, p.xEnd - p.x, p.yEnd - p.y)
  }

  /** The geometry promised for every written placement. */
  ghost predicate InBounds(p: Placement, piece: Piece) {
    p.id == piece.id
    && 0 <= p.x <= Columns - piece.w && p.y >= 0
    && p.xEnd == p.x + piece.w && p.yEnd == p.y + piece.h
  }

  /** A place in an occupancy where a block fits, and a scan limit at or
    * above its row, make the first-fit search succeed. */
  lemma FirstFitFinds(o: Occupancy, y0: int, limit: int, w: int, h: int, x: int, y: int)
    requires y0 <= y <= limit && 0 <= x <= Columns - w && Fits(o, x, y, w, h)
    ensures FirstFit(o, y0, limit, w, h).Some?
  {
    FirstFitSpec(o, y0, limit, w, h);
  }

  /** For a block of width 1 to 20 and height at least 1 a position always
    * exists: the row just below every created row is within the scan. */
  lemma PlaceSucceeds(o: Occupancy, w: int, h: int)
    requires Wf(o) && 1 <= w <= Columns && h >= 1
    ensures Place(o, w, h).Some?
  {
    var m := MaxRow(o.rows);
    var y := if |o.rows| == 0 then 0 else m + 1;
    assert m >= 0;
    assert Fits(o, 0, y, w, h) by {
      forall r, c | y <= r < y + h && 0 <= c < w
        ensures (r, c) !in o.taken
      {
        assert r !in o.rows;
      }
    }
    FirstFitFinds(o, 0, m + h, w, h, 0, y);
  }

  /** A block wider than the grid never fits. */
  lemma PlaceFailsWhenTooWide(o: Occupancy, w: int, h: int)
    requires w > Columns
    ensures Place(o, w, h).None?
  {
    assert FirstFitInRow(o, 0, 0, w, h).None?;
  }

  lemma ClaimWf(o: Occupancy, x: int, y: int, w: int, h: int)
    requires Wf(o) && y >= 0
    ensures Wf(Claim(o, x, y, w, h))
  {
    var o' := Claim(o, x, y, w, h);
    forall r, c | (r, c) in o'.taken
      ensures r in o'.rows
    {
      if (r, c) !in o.taken {
        assert y <= r < y + h;
      }
    }
  }

  /** What a successful run produces: one placement per piece, in order, with
    * ordinal `i + 1`, within the grid's columns, never overlapping another,
    * and every placed cell claimed in the final occupancy. */
  ghost predicate RunResult(pieces: seq<Piece>, o: Occupancy, ps: seq<Placement>) {
    Wf(o)
    && |ps| == |pieces|
    && (forall i :: 0 <= i < |ps| ==> InBounds(ps[i], pieces[i]) && ps[i].orderNum == i + 1)
    && Covered(ps, o)
    && Disjoint(ps)
  }

  ghost predicate Covered(ps: seq<Placement>, o: Occupancy) {
    forall i :: 0 <= i < |ps| ==> PlacementCells(ps[i]) <= o.taken
  }

  ghost predicate Disjoint(ps: seq<Placement>) {
    forall i, j :: 0 <= i < j < |ps| ==> PlacementCells(ps[i]) !! PlacementCells(ps[j])
  }

  /** One step of a run, unfolded. */
  lemma RunStep(pieces: seq<Piece>)
    requires |pieces| > 0 && Run(pieces).Ok?
    ensures var prev := Run(pieces[..|pieces| - 1]);
      var p := pieces[|pieces| - 1];
      prev.Ok? && Place(prev.value.0, p.w, p.h).Some?
      && Run(pieces) == Step(prev.value.0, prev.value.1, p, |pieces|)
  {
  }

  /** Adding a rectangle that fits keeps earlier placements covered and
    * pairwise apart. */
  lemma ExtendDisjoint(o: Occupancy, ps: seq<Placement>, q: Placement)
    requires Covered(ps, o) && Disjoint(ps)
    requires Fits(o, q.x, q.y, q.xEnd - q.x, q.yEnd - q.y)
    ensures Covered(ps + [q], Claim(o, q.x, q.y, q.xEnd - q.x, q.yEnd - q.y))
    ensures Disjoint(ps + [q])
  {
    var ps' := ps + [q];
    forall i | 0 <= i < |ps|
      ensures PlacementCells(ps[i]) !! PlacementCells(q)
    {
      forall cell | cell in PlacementCells(q)
        ensures cell !in PlacementCells(ps[i])
      {
        assert cell !in o.taken;
      }
    }
    forall i, j | 0 <= i < j < |ps'|
      ensures PlacementCells(ps'[i]) !! PlacementCells(ps'[j])
    {
      if j < |ps| {
        assert ps'[i] == ps[i] && ps'[j] == ps[j];
      } else {
        assert ps'[i] == ps[i] && ps'[j] == q;
      }
    }
  }

  /** One successful step keeps the occupancy well formed and the placements
    * covered and apart, and appends a placement within bounds. */
  lemma StepOk(o: Occupancy, ps: seq<Placement>, p: Piece, n: int)
    requires Wf(o) && Covered(ps, o) && Disjoint(ps) && Place(o, p.w, p.h).Some?
    ensures Step(o, ps, p, n).Ok?
    ensures var (o', ps') := Step(o, ps, p, n).value;
      Wf(o') && Covered(ps', o') && Disjoint(ps')
      && |ps'| == |ps| + 1 && ps'[..|ps|] == ps
      && InBounds(ps'[|ps|], p) && ps'[|ps|].orderNum == n
  {
    var (x, y) := Place(o, p.w, p.h).value;
    var q := Placement(p.id, x, y, x + p.w, y + p.h, n);
    FirstFitSpec(o, 0, MaxRow(o.rows) + p.h, p.w, p.h);
    ClaimWf(o, x, y, p.w, p.h);
    ExtendDisjoint(o, ps, q);
    assert (ps + [q])[..|ps|] == ps;
  }

  lemma {:induction false} RunOk(pieces: seq<Piece>)
    requires Run(pieces).Ok?
    ensures RunResult(pieces, Run(pieces).value.0, Run(pieces).value.1)
    decreases |pieces|
  {
    if |pieces| > 0 {
      var prefix := pieces[..|pieces| - 1];
      RunStep(pieces);
      RunOk(prefix);
      var (o, ps) := Run(prefix).value;
      StepOk(o, ps, pieces[|pieces| - 1], |pieces|);
      var ps' := Run(pieces).value.1;
      forall i | 0 <= i < |ps'|
        ensures InBounds(ps'[i], pieces[i]) && ps'[i].orderNum == i + 1
      {
        if i < |ps| {
          assert ps'[i] == ps'[..|ps|][i] == ps[i];
          assert pieces[i] == prefix[i];
        }
      }
    }
  }

  /** Blocks that all fit in the grid's width are all placed. */
  lemma {:induction false} RunOkWhenAllFit(pieces: seq<Piece>)
    requires forall i :: 0 <= i < |pieces| ==> 1 <= pieces[i].w <= Columns && pieces[i].h >= 1
    ensures Run(pieces).Ok?
    decreases |pieces|
  {
    if |pieces| > 0 {
      var prefix := pieces[..|pieces| - 1];
      assert forall i :: 0 <= i < |prefix| ==> prefix[i] == pieces[i];
      RunOkWhenAllFit(prefix);
      RunOk(prefix);
      var p := pieces[|pieces| - 1];
      PlaceSucceeds(Run(prefix).value.0, p.w, p.h);
    }
  }

  /** Once a prefix has failed, the whole run fails with the same block. */
  lemma {:induction false} RunErrSticks(pieces: seq<Piece>, k: nat)
    requires k <= |pieces| && Run(pieces[..k]).Err?
    ensures Run(pieces) == Run(pieces[..k])
    decreases |pieces|
  {
    if k < |pieces| {
      var prefix := pieces[..|pieces| - 1];
      assert prefix[..k] == pieces[..k];
      RunErrSticks(prefix, k);
    } else {
      assert pieces[..k] == pieces;
    }
  }

  /** The index of the first block at or after `k` that is wider than the
    * grid, or `|pieces|` if there is none. */
  ghost function FirstWideFrom(pieces: seq<Piece>, k: nat): (i: nat)
    requires k <= |pieces|
    ensures k <= i <= |pieces|
    ensures forall j :: k <= j < i ==> pieces[j].w <= Columns
    ensures i < |pieces| ==> pieces[i].w > Columns
    decreases |pieces| - k
  {
    if k == |pieces| then k
    else if pieces[k].w > Columns then k
    else FirstWideFrom(pieces, k + 1)
  }

  /** `i` is the first block wider than the grid. */
  ghost predicate FirstTooWide(pieces: seq<Piece>, i: int) {
    0 <= i < |pieces| && pieces[i].w > Columns
    && forall j :: 0 <= j < i ==> pieces[j].w <= Columns
  }

  /** A run fails exactly when some block is wider than the grid (given the
    * schema bounds `w >= 1` and `h >= 1`), and then it names the first such
    * block. */
  lemma RunFailsIffTooWide(pieces: seq<Piece>)
    requires forall i :: 0 <= i < |pieces| ==> pieces[i].w >= 1 && pieces[i].h >= 1
    ensures Run(pieces).Ok? <==> forall i :: 0 <= i < |pieces| ==> pieces[i].w <= Columns
    ensures Run(pieces).Err? ==>
      exists i :: FirstTooWide(pieces, i) && Run(pieces).error == pieces[i].id
  {
    var i := FirstWideFrom(pieces, 0);
    if i == |pieces| {
      RunOkWhenAllFit(pieces);
    } else {
      assert FirstTooWide(pieces, i);
      var before := pieces[..i];
      var upto := pieces[..i + 1];
      assert forall j :: 0 <= j < |before| ==> before[j] == pieces[j];
      RunOkWhenAllFit(before);
      RunOk(before);
      PlaceFailsWhenTooWide(Run(before).value.0, pieces[i].w, pieces[i].h);
      assert upto[..i] == before;
      assert Run(upto) == Err(pieces[i].id);
      RunErrSticks(pieces, i + 1);
    }
  }

  /** `(x, y)` is where the row-major first-fit scan puts a `w` by `h` block:
    * within the columns, free, and no earlier position of the scan is free. */
  ghost predicate IsFirstFit(o: Occupancy, x: int, y: int, w: int, h: int) {
    0 <= x <= Columns - w && y >= 0 && Fits(o, x, y, w, h)
    && (forall y', x' :: 0 <= y' < y && 0 <= x' <= Columns - w ==> !Fits(o, x', y', w, h))
    && (forall x' :: 0 <= x' < x ==> !Fits(o, x', y, w, h))
  }

  /** The placements of a run are those of its prefixes: placing later blocks
    * never moves an earlier one. */
  lemma {:induction false} RunPrefix(pieces: seq<Piece>, k: nat)
    requires Run(pieces).Ok? && k <= |pieces|
    ensures Run(pieces[..k]).Ok?
    ensures |Run(pieces).value.1| == |pieces|
    ensures Run(pieces[..k]).value.1 == Run(pieces).value.1[..k]
    decreases |pieces|
  {
    RunOk(pieces);
    if k == |pieces| {
      assert pieces[..k] == pieces;
    } else {
      var prefix := pieces[..|pieces| - 1];
      RunStep(pieces);
      RunPrefix(prefix, k);
      assert prefix[..k] == pieces[..k];
    }
  }

  /** The position `Place` picks is the first fit of the scan. */
  lemma PlaceIsFirstFit(o: Occupancy, w: int, h: int)
    requires Place(o, w, h).Some?
    ensures IsFirstFit(o, Place(o, w, h).value.0, Place(o, w, h).value.1, w, h)
  {
    FirstFitSpec(o, 0, MaxRow(o.rows) + h, w, h);
  }

  /** First-fit minimality of every placement of a run: the i-th block sits at
    * the first free position of the scan over the cells claimed by the blocks
    * before it. */
  lemma RunFirstFit(pieces: seq<Piece>, i: nat)
    requires Run(pieces).Ok? && i < |pieces|
    ensures Run(pieces[..i]).Ok? && |Run(pieces).value.1| == |pieces|
    ensures var q := Run(pieces).value.1[i];
      IsFirstFit(Run(pieces[..i]).value.0, q.x, q.y, pieces[i].w, pieces[i].h)
  {
    RunPrefix(pieces, i + 1);
    var upto := pieces[..i + 1];
    assert upto[..i] == pieces[..i];
    assert upto[i] == pieces[i];
    RunStep(upto);
    var (o, ps) := Run(pieces[..i]).value;
    var p := pieces[i];
    var (x, y) := Place(o, p.w, p.h).value;
    StepPlaced(o, ps, p, i + 1, x, y);
    assert Run(upto).value.1[i] == Placement(p.id, x, y, x + p.w, y + p.h, i + 1);
    assert Run(pieces).value.1[i] == Run(upto).value.1[i];
    PlaceIsFirstFit(o, p.w, p.h);
  }
}
