/**
 * The reflow of the paid brand blocks: every block whose payment succeeded
 * is sorted by area, largest first (newest first among equal areas), packed
 * into the 20-column grid by the first-fit scan, and written back with its
 * new position and its ordinal.  A block that cannot be placed aborts the
 * reflow before anything is written.
 */
module Reflow {
  import opened Wrappers
  import opened Sorting
  import opened Packing
  import Grid = Occupancy
  import opened BrandBlocks

  /** `find({ paymentStatus: "success" })`, in collection order. */
  function Paid(docs: seq<BrandBlock>): (r: seq<BrandBlock>)
    ensures |r| <= |docs|
    ensures forall b :: b in r <==> b in docs && b.paymentStatus == Success
    decreases |docs|
  {
    if |docs| == 0 then []
    else
      var prev := Paid(docs[..|docs| - 1]);
      var last := docs[|docs| - 1];
      assert docs == docs[..|docs| - 1] + [last];
      if last.paymentStatus == Success then prev + [last] else prev
  }

  /** The comparator's key: area first, then creation time, both largest
    * first. */
  function BlockKey(b: BrandBlock): Key {
    Key(b.w * b.h, b.createdAt)
  }

  /** The paid blocks in reflow order. */
  function Sorted(docs: seq<BrandBlock>): seq<BrandBlock> {
    SortDesc(Paid(docs), BlockKey)
  }

  function Pieces(bs: seq<BrandBlock>): (ps: seq<Piece>)
    ensures |ps| == |bs|
    ensures forall i :: 0 <= i < |bs| ==> ps[i] == Piece(bs[i].id, bs[i].w, bs[i].h)
    decreases |bs|
  {
    if |bs| == 0 then []
    else Pieces(bs[..|bs| - 1]) + [Piece(bs[|bs| - 1].id, bs[|bs| - 1].w, bs[|bs| - 1].h)]
  }

  /** The packing of the paid blocks of a collection. */
  function Plan(docs: seq<BrandBlock>): Result<(Occupancy, seq<Placement>), nat> {
    Run(Pieces(Sorted(docs)))
  }

  /** The fields one update of the batch writes. */
  function Placed(b: BrandBlock, p: Placement): BrandBlock {
    b.(x := p.x, y := p.y, xEnd := p.xEnd, yEnd := p.yEnd, orderNum := Some(p.orderNum))
  }

  /** `updateOne({ _id: p.id }, …)`. */
  function UpdateOne(docs: seq<BrandBlock>, p: Placement): (r: seq<BrandBlock>)
    ensures |r| == |docs|
    decreases |docs|
  {
    if |docs| == 0 then []
    else UpdateOne(docs[..|docs| - 1], p) + [if docs[|docs| - 1].id == p.id then Placed(docs[|docs| - 1], p) else docs[|docs| - 1]]
  }

  /** The update rewrites the document it names and no other. */
  lemma {:induction false} UpdateOneAt(docs: seq<BrandBlock>, p: Placement, k: int)
    requires 0 <= k < |docs|
    ensures UpdateOne(docs, p)[k] == if docs[k].id == p.id then Placed(docs[k], p) else docs[k]
    decreases |docs|
  {
    if k < |docs| - 1 {
      UpdateOneAt(docs[..|docs| - 1], p, k);
    }
  }

  /** The batch of updates, applied in order. */
  function ApplyOps(docs: seq<BrandBlock>, ops: seq<Placement>): (r: seq<BrandBlock>)
    ensures |r| == |docs|
    decreases |ops|
  {
    if |ops| == 0 then docs else UpdateOne(ApplyOps(docs, ops[..|ops| - 1]), ops[|ops| - 1])
  }

  /** The collection after a reflow, or the id of the block that did not
    * fit. */
  function Reflowed(docs: seq<BrandBlock>): Result<seq<BrandBlock>, nat> {
    match Plan(docs)
    case Err(id) => Err(id)
    case Ok((_, ops)) => Ok(ApplyOps(docs, ops))
  }

  /** The first-fit scan of one block over the occupancy map: rows 0 to the
    * highest created row plus `h`, columns 0 to `20 - w`. */
  method FindSlot(occ: Grid.OccupiedMap, w: int, h: int) returns (placed: bool, x: int, y: int)
    requires occ.Valid()
    ensures placed <==> Place(occ.Model(), w, h).Some?
    ensures placed ==> Place(occ.Model(), w, h) == Some((x, y))
  {
    ghost var o := occ.Model();
    var maxOccupiedRow := occ.MaxOccupiedRow();
    var scanLimit := maxOccupiedRow + h;
    placed, x, y := false, 0, 0;
    var yCand := 0;
    while yCand <= scanLimit
      invariant 0 <= yCand
      invariant FirstFit(o, 0, scanLimit, w, h) == FirstFit(o, yCand, scanLimit, w, h)
      decreases scanLimit - yCand
    {
      var xCand := 0;
      while xCand <= Columns - w
        invariant 0 <= xCand
        invariant FirstFitInRow(o, yCand, 0, w, h) == FirstFitInRow(o, yCand, xCand, w, h)
        decreases Columns - w - xCand
      {
        var free := occ.IsFree(xCand, yCand, w, h);
        if free {
          placed, x, y := true, xCand, yCand;
          return;
        }
        xCand := xCand + 1;
      }
      yCand := yCand + 1;
    }
  }

  /** One iteration of the placement loop: the scan for block `i`, then on
    * success the claim of its cells and its update. */
  method PlaceBlock(occupiedMap: Grid.OccupiedMap, block: BrandBlock, i: nat,
                    ghost pieces: seq<Piece>, ghost ops: seq<Placement>)
    returns (op: Option<Placement>)
    requires occupiedMap.Valid() && i < |pieces|
    requires pieces[i] == Piece(block.id, block.w, block.h)
    requires Run(pieces[..i]) == Ok((occupiedMap.Model(), ops))
    modifies occupiedMap
    ensures occupiedMap.Valid()
    ensures op.None? ==> Run(pieces) == Err(block.id)
    ensures op.Some? ==> Run(pieces[..i + 1]) == Ok((occupiedMap.Model(), ops + [op.value]))
  {
    var placed, xCand, yCand := FindSlot(occupiedMap, block.w, block.h);
    ghost var o := occupiedMap.Model();
    assert Run(pieces[..i]) == Ok((o, ops));
    assert pieces[i].w == block.w && pieces[i].h == block.h;
    if !placed {
      RunStuck(pieces, i);
      return None;
    }
    occupiedMap.Claim(xCand, yCand, block.w, block.h);
    ghost var o' := occupiedMap.Model();
    assert o' == Claim(o, xCand, yCand, pieces[i].w, pieces[i].h);
    op := Some(Placement(block.id, xCand, yCand, xCand + block.w, yCand + block.h, i + 1));
    assert Place(o, pieces[i].w, pieces[i].h) == Some((xCand, yCand));
    assert op.value == Placement(pieces[i].id, xCand, yCand, xCand + pieces[i].w, yCand + pieces[i].h, i + 1);
    RunNext(pieces, i, o, ops, xCand, yCand, o', ops + [op.value]);
  }

  /** The placement loop of `reflowAllBlocks` over blocks already in
    * reflow order: the batch of updates it builds, or the id of the first
    * block that does not fit. */
  method PackBlocks(allBlocks: seq<BrandBlock>) returns (r: Result<seq<Placement>, nat>)
    ensures r.Err? <==> Run(Pieces(allBlocks)).Err?
    ensures r.Err? ==> r.error == Run(Pieces(allBlocks)).error
    ensures r.Ok? ==> r.value == Run(Pieces(allBlocks)).value.1
  {
    ghost var pieces := Pieces(allBlocks);
    var occupiedMap := new Grid.OccupiedMap();
    var bulkOps: seq<Placement> := [];
    var i := 0;
    assert pieces[..0] == [];
    while i < |allBlocks|
      invariant 0 <= i <= |allBlocks|
      invariant occupiedMap.Valid()
      invariant Run(pieces[..i]) == Ok((occupiedMap.Model(), bulkOps))
    {
      var op := PlaceBlock(occupiedMap, allBlocks[i], i, pieces, bulkOps);
      if op.None? {
        return Err(allBlocks[i].id);
      }
      bulkOps := bulkOps + [op.value];
      i := i + 1;
    }
    assert pieces[..|allBlocks|] == pieces;
    r := Ok(bulkOps);
  }

  /** `reflowAllBlocks`: on success the collection holds the reflowed
    * documents; on overflow it names the block and nothing is written. */
  method ReflowAllBlocks(store: BrandBlockStore) returns (r: Result<(), nat>)
    requires store.Valid()
    modifies store
    ensures store.Valid() && store.nextId == old(store.nextId)
    ensures r.Err? <==> Reflowed(old(store.docs)).Err?
    ensures r.Err? ==> r.error == Reflowed(old(store.docs)).error && store.docs == old(store.docs)
    ensures r.Ok? ==> store.docs == Reflowed(old(store.docs)).value
  {
    var allBlocks := Sorted(store.docs);
    var packed := PackBlocks(allBlocks);
    if packed.Err? {
      return Err(packed.error);
    }
    var bulkOps := packed.value;
    ApplyOpsKeepsIds(store.docs, bulkOps);
    if |bulkOps| > 0 {
      store.Overwrite(ApplyOps(store.docs, bulkOps));
    }
    r := Ok(());
  }

  /** The batch changes no id and no document count. */
  lemma {:induction false} ApplyOpsKeepsIds(docs: seq<BrandBlock>, ops: seq<Placement>)
    ensures forall k :: 0 <= k < |docs| ==> ApplyOps(docs, ops)[k].id == docs[k].id
    decreases |ops|
  {
    if |ops| > 0 {
      ApplyOpsKeepsIds(docs, ops[..|ops| - 1]);
      forall k | 0 <= k < |docs| ensures ApplyOps(docs, ops)[k].id == docs[k].id {
        UpdateOneAt(ApplyOps(docs, ops[..|ops| - 1]), ops[|ops| - 1], k);
      }
    }
  }

  /** Position `k` holds a paid document. */
  predicate PaidAt(docs: seq<BrandBlock>, k: int) {
    0 <= k < |docs| && docs[k].paymentStatus == Success
  }

  /** `a` carries a smaller ordinal than `b`. */
  predicate OrderedBefore(a: BrandBlock, b: BrandBlock) {
    a.orderNum.Some? && b.orderNum.Some? && a.orderNum.value < b.orderNum.value
  }

  /** Some paid document of `docs` carries the ordinal `m` in `nd`. */
  ghost predicate HasOrdinal(docs: seq<BrandBlock>, nd: seq<BrandBlock>, m: int) {
    exists k :: PaidAt(docs, k) && k < |nd| && nd[k].orderNum == Some(m)
  }

  predicate OpsDistinct(ops: seq<Placement>) {
    forall i, j :: 0 <= i < j < |ops| ==> ops[i].id != ops[j].id
  }

  lemma OpsDistinctPrefix(ops: seq<Placement>)
    requires OpsDistinct(ops) && |ops| > 0
    ensures OpsDistinct(ops[..|ops| - 1])
  {
    var prev := ops[..|ops| - 1];
    forall a, b | 0 <= a < b < |prev| ensures prev[a].id != prev[b].id {
      assert prev[a] == ops[a] && prev[b] == ops[b];
    }
  }

  /** A document no update names is left as it was. */
  lemma {:induction false} ApplyOpsMiss(docs: seq<BrandBlock>, ops: seq<Placement>, k: int)
    requires 0 <= k < |docs|
    requires forall i :: 0 <= i < |ops| ==> ops[i].id != docs[k].id
    ensures ApplyOps(docs, ops)[k] == docs[k]
    decreases |ops|
  {
    if |ops| > 0 {
      var prev, last := ops[..|ops| - 1], ops[|ops| - 1];
      assert ApplyOps(docs, ops) == UpdateOne(ApplyOps(docs, prev), last);
      forall a | 0 <= a < |prev| ensures prev[a].id != docs[k].id {
        assert prev[a] == ops[a];
      }
      ApplyOpsMiss(docs, prev, k);
      UpdateOneAt(ApplyOps(docs, prev), last, k);
    }
  }

  /** With distinct ids, the document an update names receives exactly that
    * update. */
  lemma {:induction false} ApplyOpsHit(docs: seq<BrandBlock>, ops: seq<Placement>, k: int, i: int)
    requires OpsDistinct(ops) && 0 <= k < |docs| && 0 <= i < |ops| && ops[i].id == docs[k].id
    ensures ApplyOps(docs, ops)[k] == Placed(docs[k], ops[i])
    decreases |ops|
  {
    var prev, last := ops[..|ops| - 1], ops[|ops| - 1];
    var before := ApplyOps(docs, prev);
    assert ApplyOps(docs, ops) == UpdateOne(before, last);
    UpdateOneAt(before, last, k);
    if i == |ops| - 1 {
      forall a | 0 <= a < |prev| ensures prev[a].id != docs[k].id {
        assert prev[a] == ops[a];
      }
      ApplyOpsMiss(docs, prev, k);
    } else {
      assert prev[i] == ops[i];
      OpsDistinctPrefix(ops);
      ApplyOpsHit(docs, prev, k, i);
      assert before[k].id == docs[k].id;
    }
  }

  lemma {:induction false} PaidDistinct(docs: seq<BrandBlock>)
    requires DistinctIds(docs)
    ensures DistinctIds(Paid(docs))
    decreases |docs|
  {
    if |docs| > 0 {
      var p := docs[..|docs| - 1];
      assert DistinctIds(p);
      PaidDistinct(p);
      var last := docs[|docs| - 1];
      if last.paymentStatus == Success {
        var r := Paid(p) + [last];
        forall i | 0 <= i < |Paid(p)| ensures Paid(p)[i].id != last.id {
          assert Paid(p)[i] in p;
          var a :| 0 <= a < |p| && p[a] == Paid(p)[i];
          assert docs[a] == p[a];
        }
        assert forall i, j :: 0 <= i < j < |r| ==> r[i].id != r[j].id;
      }
    }
  }

  /** `s` lists every paid document of `docs` once. */
  ghost predicate PaidOnce(docs: seq<BrandBlock>, s: seq<BrandBlock>) {
    (forall b :: b in s <==> b in docs && b.paymentStatus == Success) && DistinctIds(s)
  }

  /** `s` lists every paid document of `docs` once, largest key first. */
  ghost predicate ReflowOrderOf(docs: seq<BrandBlock>, s: seq<BrandBlock>) {
    PaidOnce(docs, s) && SortedDesc(s, BlockKey)
  }

  /** The i-th update of `ops` names the i-th block of `s` and gives it the
    * ordinal `i + 1`. */
  ghost predicate Numbers(s: seq<BrandBlock>, ops: seq<Placement>) {
    |ops| == |s| && forall i :: 0 <= i < |ops| ==> ops[i].id == s[i].id && ops[i].orderNum == i + 1
  }

  /** `ops` places the blocks of `s` in that order: it numbers them, gives
    * each a position inside the grid of the block's own size, and no two
    * updates overlap. */
  ghost predicate PlacesInOrder(s: seq<BrandBlock>, ops: seq<Placement>) {
    Numbers(s, ops)
    && (forall i :: 0 <= i < |ops| ==> InBounds(ops[i], Piece(s[i].id, s[i].w, s[i].h)))
    && Disjoint(ops)
  }

  /** Distinct documents taken from a collection with distinct ids have
    * distinct ids. */
  lemma SubsetDistinct(docs: seq<BrandBlock>, s: seq<BrandBlock>)
    requires DistinctIds(docs) && NoDup(s) && forall b :: b in s ==> b in docs
    ensures DistinctIds(s)
  {
    forall i, j | 0 <= i < j < |s| ensures s[i].id != s[j].id {
      assert s[i] in docs && s[j] in docs;
      var a :| 0 <= a < |docs| && docs[a] == s[i];
      var b :| 0 <= b < |docs| && docs[b] == s[j];
    }
  }

  /** The reflow order holds every paid block once, largest area first. */
  lemma SortedFacts(docs: seq<BrandBlock>)
    requires DistinctIds(docs)
    ensures |Sorted(docs)| == |Paid(docs)| && ReflowOrderOf(docs, Sorted(docs))
  {
    var paid := Paid(docs);
    var s := SortDesc(paid, BlockKey);
    PaidDistinct(docs);
    SortDescMembers(paid, BlockKey);
    SortDescSorted(paid, BlockKey);
    assert NoDup(paid);
    SortDescNoDup(paid, BlockKey);
    SubsetDistinct(docs, s);
  }

  /** A successful packing of the reflow order places it in order. */
  lemma PlanFacts(docs: seq<BrandBlock>)
    requires Plan(docs).Ok?
    ensures PlacesInOrder(Sorted(docs), Plan(docs).value.1)
  {
    var pieces := Pieces(Sorted(docs));
    RunOk(pieces);
  }

  /** Where a document ends up under a batch that places the reflow order:
    * a paid one takes the update of its position `i` in the order, any
    * other is left unchanged. */
  lemma LaidOut(docs: seq<BrandBlock>, s: seq<BrandBlock>, ops: seq<Placement>, k: int) returns (i: int)
    requires DistinctIds(docs) && PaidOnce(docs, s) && Numbers(s, ops) && 0 <= k < |docs|
    ensures docs[k].paymentStatus == Success ==>
      0 <= i < |s| && s[i] == docs[k] && ApplyOps(docs, ops)[k] == Placed(docs[k], ops[i])
    ensures docs[k].paymentStatus != Success ==> ApplyOps(docs, ops)[k] == docs[k]
  {
    assert forall a :: 0 <= a < |ops| ==> ops[a].id == s[a].id;
    assert OpsDistinct(ops);
    if docs[k].paymentStatus == Success {
      assert docs[k] in s;
      i :| 0 <= i < |s| && s[i] == docs[k];
      ApplyOpsHit(docs, ops, k, i);
    } else {
      i := 0;
      forall a | 0 <= a < |ops| ensures ops[a].id != docs[k].id {
        assert s[a] in docs;
      }
      ApplyOpsMiss(docs, ops, k);
    }
  }

  /** The reflow keeps every document and every id in place, leaves the
    * unpaid documents as they were, and changes only the position and the
    * ordinal of the paid ones. */
  lemma ReflowKeepsOthers(docs: seq<BrandBlock>)
    requires DistinctIds(docs) && Reflowed(docs).Ok?
    ensures var nd := Reflowed(docs).value;
      |nd| == |docs|
      && (forall k :: 0 <= k < |docs| ==> nd[k].id == docs[k].id)
      && (forall k :: 0 <= k < |docs| && docs[k].paymentStatus != Success ==> nd[k] == docs[k])
      && (forall k :: 0 <= k < |docs| ==>
            nd[k] == docs[k].(x := nd[k].x, y := nd[k].y, xEnd := nd[k].xEnd, yEnd := nd[k].yEnd,
                              orderNum := nd[k].orderNum))
  {
    var s, ops := Sorted(docs), Plan(docs).value.1;
    SortedFacts(docs);
    PlanFacts(docs);
    var nd := ApplyOps(docs, ops);
    forall k | 0 <= k < |docs|
      ensures nd[k].id == docs[k].id
      ensures docs[k].paymentStatus != Success ==> nd[k] == docs[k]
      ensures nd[k] == docs[k].(x := nd[k].x, y := nd[k].y, xEnd := nd[k].xEnd, yEnd := nd[k].yEnd,
                                orderNum := nd[k].orderNum)
    {
      var _ := LaidOut(docs, s, ops, k);
    }
  }

  /** Every paid block is written inside the grid's columns, below row 0,
    * with its end coordinates one past its last cell, so the schema's
    * position bounds hold. */
  lemma ReflowGeometry(docs: seq<BrandBlock>)
    requires DistinctIds(docs) && Reflowed(docs).Ok?
    ensures var nd := Reflowed(docs).value;
      |nd| == |docs|
      && forall k :: 0 <= k < |docs| && docs[k].paymentStatus == Success ==>
        0 <= nd[k].x <= Columns - docs[k].w && nd[k].y >= 0
        && nd[k].xEnd == nd[k].x + docs[k].w && nd[k].yEnd == nd[k].y + docs[k].h
  {
    var s, ops := Sorted(docs), Plan(docs).value.1;
    SortedFacts(docs);
    PlanFacts(docs);
    var nd := ApplyOps(docs, ops);
    forall k | 0 <= k < |docs| && docs[k].paymentStatus == Success
      ensures 0 <= nd[k].x <= Columns - docs[k].w && nd[k].y >= 0
      ensures nd[k].xEnd == nd[k].x + docs[k].w && nd[k].yEnd == nd[k].y + docs[k].h
    {
      var i := LaidOut(docs, s, ops, k);
      assert InBounds(ops[i], Piece(s[i].id, s[i].w, s[i].h));
    }
  }

  /** Under a batch that numbers the reflow order, every paid block gets an
    * ordinal from 1 to the number of paid blocks. */
  lemma LayoutOrdinalRange(docs: seq<BrandBlock>, s: seq<BrandBlock>, ops: seq<Placement>)
    requires DistinctIds(docs) && PaidOnce(docs, s) && Numbers(s, ops)
    ensures var nd := ApplyOps(docs, ops);
      forall k :: 0 <= k < |docs| && docs[k].paymentStatus == Success ==>
        nd[k].orderNum.Some? && 1 <= nd[k].orderNum.value <= |s|
  {
    var nd := ApplyOps(docs, ops);
    forall k | 0 <= k < |docs| && docs[k].paymentStatus == Success
      ensures nd[k].orderNum.Some? && 1 <= nd[k].orderNum.value <= |s|
    {
      var _ := LaidOut(docs, s, ops, k);
    }
  }

  /** Under a batch that numbers the reflow order, no two paid blocks share
    * an ordinal. */
  lemma LayoutOrdinalsDistinct(docs: seq<BrandBlock>, s: seq<BrandBlock>, ops: seq<Placement>)
    requires DistinctIds(docs) && PaidOnce(docs, s) && Numbers(s, ops)
    ensures var nd := ApplyOps(docs, ops);
      forall j, k :: PaidAt(docs, j) && PaidAt(docs, k) && j != k ==> nd[j].orderNum != nd[k].orderNum
  {
    var nd := ApplyOps(docs, ops);
    forall j, k | PaidAt(docs, j) && PaidAt(docs, k) && j != k
      ensures nd[j].orderNum != nd[k].orderNum
    {
      var a := LaidOut(docs, s, ops, j);
      var b := LaidOut(docs, s, ops, k);
      assert docs[j].id != docs[k].id;
      assert a != b;
    }
  }

  /** Under a batch that numbers the reflow order, every ordinal from 1 to
    * the number of paid blocks is given to some paid block. */
  lemma LayoutOrdinalsOnto(docs: seq<BrandBlock>, s: seq<BrandBlock>, ops: seq<Placement>)
    requires DistinctIds(docs) && PaidOnce(docs, s) && Numbers(s, ops)
    ensures var nd := ApplyOps(docs, ops);
      forall m :: 1 <= m <= |s| ==> HasOrdinal(docs, nd, m)
  {
    var nd := ApplyOps(docs, ops);
    forall m | 1 <= m <= |s|
      ensures HasOrdinal(docs, nd, m)
    {
      assert s[m - 1] in docs;
      var k :| 0 <= k < |docs| && docs[k] == s[m - 1];
      var i := LaidOut(docs, s, ops, k);
      assert s[i].id == s[m - 1].id;
      assert i == m - 1;
      assert PaidAt(docs, k) && k < |nd| && nd[k].orderNum == Some(m);
    }
  }

  /** The N paid blocks receive the ordinals 1 to N, each exactly once. */
  lemma ReflowOrdinals(docs: seq<BrandBlock>)
    requires DistinctIds(docs) && Reflowed(docs).Ok?
    ensures var nd := Reflowed(docs).value;
      var n := |Paid(docs)|;
      |nd| == |docs|
      && (forall k :: 0 <= k < |docs| && docs[k].paymentStatus == Success ==>
            nd[k].orderNum.Some? && 1 <= nd[k].orderNum.value <= n)
      && (forall j, k :: PaidAt(docs, j) && PaidAt(docs, k) && j != k ==> nd[j].orderNum != nd[k].orderNum)
      && (forall m :: 1 <= m <= n ==> HasOrdinal(docs, nd, m))
  {
    SortedFacts(docs);
    PlanFacts(docs);
    var s, ops := Sorted(docs), Plan(docs).value.1;
    assert Reflowed(docs).value == ApplyOps(docs, ops);
    LayoutOrdinalRange(docs, s, ops);
    LayoutOrdinalsDistinct(docs, s, ops);
    LayoutOrdinalsOnto(docs, s, ops);
  }

  /** The cells a document covers. */
  function BlockCells(b: BrandBlock): set<Cell> {
    Rect(b.x, b.y, b.xEnd - b.x, b.yEnd - b.y)
  }

  /** No two paid blocks of `docs` share a cell in `nd`. */
  ghost predicate PaidApart(docs: seq<BrandBlock>, nd: seq<BrandBlock>) {
    forall j, k :: PaidAt(docs, j) && PaidAt(docs, k) && j != k && j < |nd| && k < |nd| ==>
      BlockCells(nd[j]) !! BlockCells(nd[k])
  }

  /** Under a batch that places the reflow order, no two paid blocks share
    * a cell. */
  lemma LayoutDisjoint(docs: seq<BrandBlock>, s: seq<BrandBlock>, ops: seq<Placement>)
    requires DistinctIds(docs) && PaidOnce(docs, s) && Numbers(s, ops) && Disjoint(ops)
    ensures PaidApart(docs, ApplyOps(docs, ops))
  {
    var nd := ApplyOps(docs, ops);
    forall j, k | PaidAt(docs, j) && PaidAt(docs, k) && j != k && j < |nd| && k < |nd|
      ensures BlockCells(nd[j]) !! BlockCells(nd[k])
    {
      var a := LaidOut(docs, s, ops, j);
      var b := LaidOut(docs, s, ops, k);
      assert docs[j].id != docs[k].id;
      assert BlockCells(nd[j]) == PlacementCells(ops[a]);
      assert BlockCells(nd[k]) == PlacementCells(ops[b]);
      assert a != b;
      if a > b {
        assert PlacementCells(ops[b]) !! PlacementCells(ops[a]);
      }
    }
  }

  /** No two paid blocks share a cell after the reflow. */
  lemma ReflowDisjoint(docs: seq<BrandBlock>)
    requires DistinctIds(docs) && Reflowed(docs).Ok?
    ensures |Reflowed(docs).value| == |docs| && PaidApart(docs, Reflowed(docs).value)
  {
    SortedFacts(docs);
    PlanFacts(docs);
    assert Reflowed(docs).value == ApplyOps(docs, Plan(docs).value.1);
    LayoutDisjoint(docs, Sorted(docs), Plan(docs).value.1);
  }

  /** A smaller ordinal goes to a larger area, or to an equal area created
    * no earlier. */
  lemma ReflowOrder(docs: seq<BrandBlock>)
    requires DistinctIds(docs) && Reflowed(docs).Ok?
    ensures var nd := Reflowed(docs).value;
      |nd| == |docs|
      && forall j, k :: PaidAt(docs, j) && PaidAt(docs, k) && OrderedBefore(nd[j], nd[k]) ==>
        (docs[j].w * docs[j].h > docs[k].w * docs[k].h
         || (docs[j].w * docs[j].h == docs[k].w * docs[k].h && docs[j].createdAt >= docs[k].createdAt))
  {
    var s, ops := Sorted(docs), Plan(docs).value.1;
    SortedFacts(docs);
    PlanFacts(docs);
    var nd := ApplyOps(docs, ops);
    forall j, k | PaidAt(docs, j) && PaidAt(docs, k) && OrderedBefore(nd[j], nd[k])
      ensures AtLeast(BlockKey(docs[j]), BlockKey(docs[k]))
    {
      var a := LaidOut(docs, s, ops, j);
      var b := LaidOut(docs, s, ops, k);
    }
  }

  /** The reflow fails exactly when a paid block is wider than the grid
    * (given the schema's `w >= 1` and `h >= 1`), and it then names such a
    * block; in particular it never fails on blocks that passed the schema. */
  lemma ReflowOverflow(docs: seq<BrandBlock>)
    requires forall b :: b in docs && b.paymentStatus == Success ==> b.w >= 1 && b.h >= 1
    ensures Reflowed(docs).Ok? <==> forall b :: b in docs && b.paymentStatus == Success ==> b.w <= Columns
    ensures Reflowed(docs).Err? ==>
      exists b :: b in docs && b.paymentStatus == Success && b.w > Columns && b.id == Reflowed(docs).error
  {
    var s := Sorted(docs);
    var pieces := Pieces(s);
    SortDescMembers(Paid(docs), BlockKey);
    assert forall i :: 0 <= i < |s| ==> s[i] in docs;
    RunFailsIffTooWide(pieces);
    if Run(pieces).Ok? {
      forall b | b in docs && b.paymentStatus == Success ensures b.w <= Columns {
        assert b in s;
        var i :| 0 <= i < |s| && s[i] == b;
        assert pieces[i].w == b.w;
      }
    } else {
      var i :| FirstTooWide(pieces, i) && Run(pieces).error == pieces[i].id;
      assert s[i] in docs;
    }
  }

  /** A block with the fields a reflow writes cleared. */
  function Unplaced(b: BrandBlock): BrandBlock {
    b.(x := 0, y := 0, xEnd := 0, yEnd := 0, orderNum := None)
  }

  lemma {:induction false} PaidUnplaced(docs: seq<BrandBlock>)
    ensures Paid(MapSeq(docs, Unplaced)) == MapSeq(Paid(docs), Unplaced)
    decreases |docs|
  {
    if |docs| > 0 {
      var init := docs[..|docs| - 1];
      assert MapSeq(docs, Unplaced)[..|docs| - 1] == MapSeq(init, Unplaced);
      PaidUnplaced(init);
      if docs[|docs| - 1].paymentStatus == Success {
        assert MapSeq(Paid(init) + [docs[|docs| - 1]], Unplaced) == MapSeq(Paid(init), Unplaced) + [Unplaced(docs[|docs| - 1])];
      }
    }
  }

  /** The packing reads only what a reflow does not write. */
  lemma PlanUnplaced(docs: seq<BrandBlock>)
    ensures Pieces(Sorted(docs)) == Pieces(SortDesc(Paid(MapSeq(docs, Unplaced)), BlockKey))
  {
    assert forall b :: BlockKey(Unplaced(b)) == BlockKey(b);
    PaidUnplaced(docs);
    SortDescMap(Paid(docs), BlockKey, Unplaced);
    var s := Sorted(docs);
    assert Pieces(MapSeq(s, Unplaced)) == Pieces(s);
  }

  /** A reflowed collection packs exactly as the original did. */
  lemma ReflowSamePlan(docs: seq<BrandBlock>)
    requires DistinctIds(docs) && Reflowed(docs).Ok?
    ensures Plan(Reflowed(docs).value) == Plan(docs)
  {
    var nd := Reflowed(docs).value;
    ReflowKeepsOthers(docs);
    assert MapSeq(nd, Unplaced) == MapSeq(docs, Unplaced);
    PlanUnplaced(docs);
    PlanUnplaced(nd);
  }

  /** The second run writes each document's own position and ordinal again. */
  lemma ReflowAgainAt(docs: seq<BrandBlock>, nd: seq<BrandBlock>, ops: seq<Placement>, k: int)
    requires DistinctIds(docs) && DistinctIds(nd) && 0 <= k < |nd| == |docs|
    requires ReflowOrderOf(docs, Sorted(docs)) && ReflowOrderOf(nd, Sorted(nd))
    requires Numbers(Sorted(docs), ops) && Numbers(Sorted(nd), ops)
    requires nd == ApplyOps(docs, ops) && nd[k].paymentStatus == docs[k].paymentStatus && nd[k].id == docs[k].id
    ensures ApplyOps(nd, ops)[k] == nd[k]
  {
    var j := LaidOut(docs, Sorted(docs), ops, k);
    var i := LaidOut(nd, Sorted(nd), ops, k);
    if docs[k].paymentStatus == Success {
      assert ops[i].id == ops[j].id;
      assert i == j;
    }
  }

  /** Reflowing a reflowed collection changes nothing: the packing reads
    * only sizes, creation times, statuses and ids, which a reflow keeps,
    * so the second run writes the same positions and ordinals again. */
  lemma ReflowIdempotent(docs: seq<BrandBlock>)
    requires DistinctIds(docs) && Reflowed(docs).Ok?
    ensures Reflowed(Reflowed(docs).value) == Reflowed(docs)
  {
    var nd := Reflowed(docs).value;
    var ops := Plan(docs).value.1;
    ReflowKeepsOthers(docs);
    ReflowSamePlan(docs);
    assert DistinctIds(nd);
    SortedFacts(docs);
    SortedFacts(nd);
    PlanFacts(docs);
    PlanFacts(nd);
    var again := ApplyOps(nd, ops);
    forall k | 0 <= k < |nd|
      ensures again[k] == nd[k]
    {
      ReflowAgainAt(docs, nd, ops, k);
    }
    assert again == nd;
    assert Reflowed(nd) == Ok(again);
  }
}
