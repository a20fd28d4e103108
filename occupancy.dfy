/**
 * The occupancy map of the reflow: row number to a 20-entry array of flags,
 * created lazily the first time a row is claimed.
 */
module Occupancy {
  import opened Packing

  /** Every row holds one flag per column and the key list names exactly
    * the created rows. */
  ghost predicate WellFormed(rows: map<int, seq<bool>>, keys: seq<int>) {
    (forall r :: r in rows ==> |rows[r]| == Columns)
    && (forall r :: r in keys <==> r in rows)
  }

  /** The created rows and the claimed cells of a map of rows. */
  ghost function ModelOf(rows: map<int, seq<bool>>, keys: seq<int>): Occupancy
    requires WellFormed(rows, keys)
  {
    Occupancy(keys, set r, c | r in rows && 0 <= c < Columns && rows[r][c] :: (r, c))
  }

  lemma ModelAddRow(rows: map<int, seq<bool>>, keys: seq<int>, row: int)
    requires WellFormed(rows, keys) && row !in rows
    ensures WellFormed(rows[row := seq(Columns, _ => false)], keys + [row])
    ensures ModelOf(rows[row := seq(Columns, _ => false)], keys + [row])
      == Occupancy(keys + [row], ModelOf(rows, keys).taken)
  {
    var rows' := rows[row := seq(Columns, _ => false)];
    assert ModelOf(rows', keys + [row]).taken == ModelOf(rows, keys).taken;
  }

  lemma ModelSetCell(rows: map<int, seq<bool>>, keys: seq<int>, row: int, col: int)
    requires WellFormed(rows, keys) && row in rows && 0 <= col < Columns
    ensures WellFormed(rows[row := rows[row][col := true]], keys)
    ensures ModelOf(rows[row := rows[row][col := true]], keys)
      == Occupancy(keys, ModelOf(rows, keys).taken + {(row, col)})
  {
    var rows' := rows[row := rows[row][col := true]];
    var t := ModelOf(rows, keys).taken;
    var t' := ModelOf(rows', keys).taken;
    forall cell | cell in t + {(row, col)}
      ensures cell in t'
    {
      if cell != (row, col) {
        var (r, c) := cell;
        assert r in rows && 0 <= c < Columns && rows[r][c];
        assert rows'[r][c];
      }
    }
  }

  lemma RectEmpty(x: int, y: int, w: int, h: int)
    requires w <= 0 || h <= 0
    ensures Rect(x, y, w, h) == {}
  {
  }

  lemma RectGrowCols(x: int, row: int, k: nat)
    ensures Rect(x, row, k + 1, 1) == Rect(x, row, k, 1) + {(row, x + k)}
  {
  }

  class OccupiedMap {
    /** Created rows; every row has one flag per column. */
    var rows: map<int, seq<bool>>
    /** The created row keys, one entry each.  `Object.keys` would list them
      * in ascending numeric order; the only reader takes their maximum, so
      * the order kept here is immaterial. */
    var keys: seq<int>

    ghost predicate Valid()
      reads this
    {
      WellFormed(rows, keys)
    }

    ghost function Model(): Occupancy
      reads this
      requires Valid()
    {
      ModelOf(rows, keys)
    }

    constructor ()
      ensures Valid() && Model() == Empty
    {
      rows := map[];
      keys := [];
    }

    /** The highest created row, or 0 when there is none. */
    method MaxOccupiedRow() returns (m: int)
      requires Valid()
      ensures m == MaxRow(Model().rows)
    {
      m := 0;
      for i := 0 to |keys|
        invariant m == MaxRow(keys[..i])
      {
        assert keys[..i + 1][..i] == keys[..i];
        if i == 0 || keys[i] > m {
          m := keys[i];
        }
      }
      assert keys[..|keys|] == keys;
    }

    /** Whether no cell of the `w` by `h` rectangle at `(x, y)` is claimed.
      * A missing row reads as a row of `false` flags, and a column outside
      * the row reads as an absent (falsy) entry. */
    method IsFree(x: int, y: int, w: int, h: int) returns (free: bool)
      requires Valid()
      ensures free == Fits(Model(), x, y, w, h)
    {
      ghost var taken := Model().taken;
      var overlap := false;
      var row := y;
      while row < y + h
        invariant if h <= 0 then row == y else y <= row <= y + h
        invariant !overlap ==> forall r, c :: y <= r < row && x <= c < x + w ==> (r, c) !in taken
        invariant overlap ==> !Fits(Model(), x, y, w, h)
        decreases y + h - row
      {
        var rowArr := if row in rows then rows[row] else seq(Columns, _ => false);
        var col := x;
        while col < x + w
          invariant x <= col || w <= 0
          invariant !overlap ==> forall c :: x <= c < col ==> (row, c) !in taken
          invariant overlap ==> (row, col) in taken && y <= row < y + h && x <= col < x + w
          decreases x + w - col
        {
          if 0 <= col < Columns && rowArr[col] {
            assert row in rows && rows[row][col];
            assert (row, col) in taken;
            overlap := true;
            break;
          }
          col := col + 1;
        }
        if overlap {
          assert (row, col) in Model().taken;
          assert !Fits(Model(), x, y, w, h);
          break;
        }
        row := row + 1;
      }
      if overlap {
        free := false;
      } else {
        assert forall r, c :: y <= r < y + h && x <= c < x + w ==> (r, c) !in taken;
        assert Fits(Model(), x, y, w, h);
        free := true;
      }
    }

    /** `occupiedMap[row] = Array(20).fill(false)` when the row is missing. */
    method EnsureRow(row: int)
      requires Valid()
      modifies this
      ensures Valid() && row in rows
      ensures Model() == Occupancy(AddRow(old(Model()).rows, row), old(Model()).taken)
    {
      if row !in rows {
        ModelAddRow(rows, keys, row);
        rows := rows[row := seq(Columns, _ => false)];
        keys := keys + [row];
      }
    }

    /** Flips the flags of columns `x` to `x + w - 1` of an existing row. */
    method FillRow(row: int, x: int, w: int)
      requires Valid() && row in rows && 0 <= x && x + w <= Columns
      modifies this
      ensures Valid()
      ensures Model() == Occupancy(old(Model()).rows, old(Model()).taken + Rect(x, row, w, 1))
    {
      ghost var before := Model();
      var col := x;
      while col < x + w
        invariant Valid() && row in rows
        invariant if w <= 0 then col == x else x <= col <= x + w
        invariant Model() == Occupancy(before.rows, before.taken + Rect(x, row, col - x, 1))
        decreases x + w - col
      {
        ModelSetCell(rows, keys, row, col);
        RectGrowCols(x, row, col - x);
        rows := rows[row := rows[row][col := true]];
        col := col + 1;
      }
      if w <= 0 {
        RectEmpty(x, row, w, 1);
        RectEmpty(x, row, col - x, 1);
      }
    }

    /** Creates the rectangle's rows that do not exist yet and flips its cells
      * to `true`. */
    method Claim(x: int, y: int, w: int, h: int)
      requires Valid() && 0 <= x && x + w <= Columns
      modifies this
      ensures Valid()
      ensures Model() == Packing.Claim(old(Model()), x, y, w, h)
    {
      ghost var o := Model();
      ClaimNextRow(o, x, y, w, 0);
      var row := y;
      while row < y + h
        invariant Valid()
        invariant if h <= 0 then row == y else y <= row <= y + h
        invariant Model() == Packing.Claim(o, x, y, w, row - y)
        decreases y + h - row
      {
        EnsureRow(row);
        FillRow(row, x, w);
        ClaimNextRow(o, x, y, w, row - y);
        row := row + 1;
      }
      if h <= 0 {
        ClaimEmpty(o, x, y, w, h);
      }
    }
  }
}
