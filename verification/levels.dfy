/** The level loader: turns a layout grid of cell codes into the level's bricks.
    Code 0 is an empty cell, code 2 a silver brick and every other code a
    standard brick. The table of layouts is a parameter. */
module Levels {
  import opened Constants
  import opened Entities

  /** A level layout: rows of cell codes. */
  type Layout = seq<seq<int>>

  /** The brick that the non-zero cell (`row`, `col`) of level `level` becomes. */
  function BrickAt(level: nat, row: nat, col: nat, code: int): Brick {
    var silver := code == 2;
    Brick(BrickId(level, row, col),
          Vec(BrickOffsetLeft + col as real * (BrickWidth + BrickGap),
              BrickOffsetTop + row as real * (BrickHeight + BrickGap)),
          BrickWidth, BrickHeight,
          if silver then Silver else Standard,
          if silver then 2 else 1,
          false)
  }

  /** Row-major order of brick ids within one level. */
  predicate IdBefore(a: BrickId, b: BrickId) {
    a.row < b.row || (a.row == b.row && a.col < b.col)
  }

  predicate RowMajor(bricks: seq<Brick>) {
    forall i, j :: 0 <= i < j < |bricks| ==> IdBefore(bricks[i].id, bricks[j].id)
  }

  /** Number of non-zero codes in a row. */
  function NonZeroIn(cells: seq<int>): nat {
    if |cells| == 0 then 0
    else (if cells[0] != 0 then 1 else 0) + NonZeroIn(cells[1..])
  }

  /** Number of non-zero cells in a layout. */
  function NonZeroCells(layout: Layout): nat {
    if |layout| == 0 then 0
    else NonZeroIn(layout[0]) + NonZeroCells(layout[1..])
  }

  lemma RowMajorConcat(a: seq<Brick>, b: seq<Brick>)
    requires RowMajor(a) && RowMajor(b)
    requires forall x, y :: x in a && y in b ==> IdBefore(x.id, y.id)
    ensures RowMajor(a + b)
  {
    var ab := a + b;
    forall i, j | 0 <= i < j < |ab|
      ensures IdBefore(ab[i].id, ab[j].id)
    {
      if j < |a| {
        assert ab[i] == a[i] && ab[j] == a[j];
      } else if i >= |a| {
        assert ab[i] == b[i - |a|] && ab[j] == b[j - |a|];
      } else {
        assert ab[i] in a && ab[j] in b;
      }
    }
  }

  /** The bricks of the cells `cells[col..]` of row `row`, left to right. */
  function RowBricks(level: nat, row: nat, cells: seq<int>, col: nat): (r: seq<Brick>)
    requires col <= |cells|
    ensures |r| == NonZeroIn(cells[col..])
    ensures forall b :: b in r ==>
              && b.id.level == level && b.id.row == row && col <= b.id.col < |cells|
              && cells[b.id.col] != 0
              && b == BrickAt(level, row, b.id.col, cells[b.id.col])
    ensures forall c :: col <= c < |cells| && cells[c] != 0 ==> BrickAt(level, row, c, cells[c]) in r
    ensures RowMajor(r)
    decreases |cells| - col
  {
    if col == |cells| then []
    else
      var rest := RowBricks(level, row, cells, col + 1);
      assert cells[col..][1..] == cells[col + 1..];
      if cells[col] == 0 then rest
      else
        var b := BrickAt(level, row, col, cells[col]);
        RowMajorConcat([b], rest);
        [b] + rest
  }

  /** The bricks of rows `row..` of a layout, in row-major order. */
  function GridBricks(level: nat, layout: Layout, row: nat): (r: seq<Brick>)
    requires row <= |layout|
    ensures |r| == NonZeroCells(layout[row..])
    ensures forall b :: b in r ==>
              && b.id.level == level && row <= b.id.row < |layout| && b.id.col < |layout[b.id.row]|
              && layout[b.id.row][b.id.col] != 0
              && b == BrickAt(level, b.id.row, b.id.col, layout[b.id.row][b.id.col])
    ensures forall rr, c :: row <= rr < |layout| && 0 <= c < |layout[rr]| && layout[rr][c] != 0 ==>
              BrickAt(level, rr, c, layout[rr][c]) in r
    ensures RowMajor(r)
    decreases |layout| - row
  {
    if row == |layout| then []
    else
      var first := RowBricks(level, row, layout[row], 0);
      var rest := GridBricks(level, layout, row + 1);
      assert layout[row][0..] == layout[row];
      assert layout[row..][1..] == layout[row + 1..];
      RowMajorConcat(first, rest);
      first + rest
  }

  /** The bricks of level `levelIndex`; the layout table is cycled through. */
  function LoadLevel(levels: seq<Layout>, levelIndex: nat): (r: seq<Brick>)
    requires |levels| > 0
    ensures var layout := levels[levelIndex % |levels|];
            && |r| == NonZeroCells(layout)
            && RowMajor(r)
            && (forall i, j :: 0 <= i < j < |r| ==> r[i].id != r[j].id)
            && (forall b :: b in r ==>
                  && b.id.level == levelIndex
                  && b.id.row < |layout| && b.id.col < |layout[b.id.row]|
                  && layout[b.id.row][b.id.col] != 0
                  && !b.destroyed
                  && b.width == BrickWidth && b.height == BrickHeight
                  && (b.kind == Silver <==> layout[b.id.row][b.id.col] == 2)
                  && b.hitsLeft == (if b.kind == Silver then 2 else 1)
                  && b.position == Vec(BrickOffsetLeft + b.id.col as real * (BrickWidth + BrickGap),
                                       BrickOffsetTop + b.id.row as real * (BrickHeight + BrickGap)))
            && (forall row, col :: 0 <= row < |layout| && 0 <= col < |layout[row]| && layout[row][col] != 0 ==>
                  exists b :: b in r && b.id == BrickId(levelIndex, row, col))
  {
    var layout := levels[levelIndex % |levels|];
    var r := GridBricks(levelIndex, layout, 0);
    assert layout[0..] == layout;
    assert forall row, col :: 0 <= row < |layout| && 0 <= col < |layout[row]| && layout[row][col] != 0 ==>
             BrickAt(levelIndex, row, col, layout[row][col]) in r;
    r
  }

  /** `bricks` with every id moved to level `level`. */
  function Relevel(bricks: seq<Brick>, level: nat): (r: seq<Brick>)
    ensures |r| == |bricks|
  {
    if |bricks| == 0 then []
    else [bricks[0].(id := bricks[0].id.(level := level))] + Relevel(bricks[1..], level)
  }

  lemma {:induction false} RelevelConcat(a: seq<Brick>, b: seq<Brick>, level: nat)
    ensures Relevel(a + b, level) == Relevel(a, level) + Relevel(b, level)
  {
    if |a| == 0 {
      assert a + b == b;
    } else {
      assert (a + b)[0] == a[0];
      assert (a + b)[1..] == a[1..] + b;
      RelevelConcat(a[1..], b, level);
    }
  }

  lemma {:induction false} RowBricksRelevel(l1: nat, l2: nat, row: nat, cells: seq<int>, col: nat)
    requires col <= |cells|
    ensures RowBricks(l2, row, cells, col) == Relevel(RowBricks(l1, row, cells, col), l2)
    decreases |cells| - col
  {
    if col < |cells| {
      RowBricksRelevel(l1, l2, row, cells, col + 1);
      if cells[col] != 0 {
        var b := BrickAt(l1, row, col, cells[col]);
        RelevelConcat([b], RowBricks(l1, row, cells, col + 1), l2);
      }
    }
  }

  lemma {:induction false} GridBricksRelevel(l1: nat, l2: nat, layout: Layout, row: nat)
    requires row <= |layout|
    ensures GridBricks(l2, layout, row) == Relevel(GridBricks(l1, layout, row), l2)
    decreases |layout| - row
  {
    if row < |layout| {
      RowBricksRelevel(l1, l2, row, layout[row], 0);
      GridBricksRelevel(l1, l2, layout, row + 1);
      RelevelConcat(RowBricks(l1, row, layout[row], 0), GridBricks(l1, layout, row + 1), l2);
    }
  }

  /** Levels cycle through the layout table: two level indices equal modulo
      the table size get the same bricks, differing only in the level recorded
      in their ids. */
  lemma LevelsCycle(levels: seq<Layout>, i: nat, j: nat)
    requires |levels| > 0 && i % |levels| == j % |levels|
    ensures LoadLevel(levels, j) == Relevel(LoadLevel(levels, i), j)
  {
    var layout := levels[i % |levels|];
    assert LoadLevel(levels, i) == GridBricks(i, layout, 0);
    assert LoadLevel(levels, j) == GridBricks(j, layout, 0);
    GridBricksRelevel(i, j, layout, 0);
  }
}
