/** The two pixel-art grids the animation is assembled from, and the
    row-major enumeration of their non-empty cells that seeding walks. */
module Patterns {

  /** Santa Claus, 20 rows of 14 cells (characters.js:18-39). */
  const SantaPattern: seq<seq<int>> := [
    [0,0,0,0,1,1,1,1,1,1,0,0,0,0],
    [0,0,0,1,1,1,1,1,1,1,1,0,0,0],
    [0,0,1,2,2,2,2,2,2,2,2,1,0,0],
    [0,1,2,2,2,2,2,2,2,2,2,2,1,0],
    [0,1,2,3,3,2,2,2,2,3,3,2,1,0],
    [0,1,2,3,3,2,2,2,2,3,3,2,1,0],
    [0,1,2,2,2,4,2,2,4,2,2,2,1,0],
    [0,1,2,2,2,2,2,2,2,2,2,2,1,0],
    [0,0,1,2,2,5,5,5,5,2,2,1,0,0],
    [0,0,0,1,1,5,5,5,5,1,1,0,0,0],
    [0,0,1,1,1,1,5,5,1,1,1,1,0,0],
    [0,1,6,6,6,6,6,6,6,6,6,6,1,0],
    [1,6,6,6,6,6,6,6,6,6,6,6,6,1],
    [1,6,6,6,6,6,6,6,6,6,6,6,6,1],
    [1,6,6,6,6,6,6,6,6,6,6,6,6,1],
    [0,1,6,6,6,6,6,6,6,6,6,6,1,0],
    [0,0,1,7,7,6,6,6,6,7,7,1,0,0],
    [0,0,0,1,7,7,1,1,7,7,1,0,0,0],
    [0,0,0,1,7,7,1,1,7,7,1,0,0,0],
    [0,0,0,0,1,1,0,0,1,1,0,0,0,0]
  ]

  /** Christmas tree, 17 rows; rows 14-16 (the trunk) have 11 cells, the others 12 (characters.js:42-60). */
  const TreePattern: seq<seq<int>> := [
    [0,0,0,0,0,8,8,0,0,0,0,0],
    [0,0,0,0,8,8,8,8,0,0,0,0],
    [0,0,0,8,8,8,8,8,8,0,0,0],
    [0,0,8,8,8,9,8,8,8,8,0,0],
    [0,8,8,8,8,8,8,8,8,8,8,0],
    [8,8,8,9,8,8,8,9,8,8,8,8],
    [0,0,8,8,8,8,8,8,8,8,0,0],
    [0,8,8,8,8,9,8,8,8,8,8,0],
    [8,8,8,8,8,8,8,8,8,8,8,8],
    [0,8,8,8,8,8,8,8,8,8,8,0],
    [0,0,8,8,9,8,8,9,8,8,0,0],
    [0,8,8,8,8,8,8,8,8,8,8,0],
    [8,8,8,9,8,8,8,8,9,8,8,8],
    [0,8,8,8,8,8,8,8,8,8,8,0],
    [0,0,0,10,10,10,10,10,0,0,0],
    [0,0,0,10,10,10,10,10,0,0,0],
    [0,0,0,10,10,10,10,10,0,0,0]
  ]

  /** A non-empty grid cell: its row, its column and the colour index stored there. */
  datatype Cell = Cell(row: nat, col: nat, value: int)

  /** The non-zero cells among the first `n` entries of `row` (row number `y`), left to right. */
  function RowCells(row: seq<int>, y: nat, n: nat): seq<Cell>
    requires n <= |row|
  {
    if n == 0 then []
    else RowCells(row, y, n - 1) + (if row[n - 1] != 0 then [Cell(y, n - 1, row[n - 1])] else [])
  }

  /** The non-zero cells of the first `n` rows of `g`, in row-major order. */
  function GridCells(g: seq<seq<int>>, n: nat): seq<Cell>
    requires n <= |g|
  {
    if n == 0 then [] else GridCells(g, n - 1) + RowCells(g[n - 1], n - 1, |g[n - 1]|)
  }

  /** Every non-zero cell of `g`, in the order two nested forEach loops visit them. */
  function Cells(g: seq<seq<int>>): seq<Cell>
  {
    GridCells(g, |g|)
  }

  /** Number of non-zero entries of a row, counted independently of `RowCells`. */
  function RowNonZero(row: seq<int>): nat
  {
    if row == [] then 0 else (if row[0] != 0 then 1 else 0) + RowNonZero(row[1..])
  }

  /** Number of non-zero entries in the first `n` rows of a grid. */
  function CountRows(g: seq<seq<int>>, n: nat): nat
    requires n <= |g|
  {
    if n == 0 then 0 else CountRows(g, n - 1) + RowNonZero(g[n - 1])
  }

  /** Number of non-zero entries of a grid. */
  function NonZeroCount(g: seq<seq<int>>): nat
  {
    CountRows(g, |g|)
  }

  /** `a` comes strictly before `b` when cells are visited row by row, left to right. */
  predicate Before(a: Cell, b: Cell)
  {
    a.row < b.row || (a.row == b.row && a.col < b.col)
  }

  /** The cells are listed in strictly increasing row-major order (so without repetition). */
  predicate RowMajor(cs: seq<Cell>)
  {
    forall i, j :: 0 <= i < j < |cs| ==> Before(cs[i], cs[j])
  }

  /** `c` names a non-zero entry of `g`, together with the value stored there. */
  predicate IsNonZeroCell(g: seq<seq<int>>, c: Cell)
  {
    c.row < |g| && c.col < |g[c.row]| && g[c.row][c.col] == c.value && c.value != 0
  }

  /** Every value of `g` is a colour index of the palette, 0 to 10. */
  predicate InPalette(g: seq<seq<int>>)
  {
    forall r, c :: 0 <= r < |g| && 0 <= c < |g[r]| ==> 0 <= g[r][c] <= 10
  }

  lemma {:induction false} RowNonZeroAppend(a: seq<int>, b: seq<int>)
    ensures RowNonZero(a + b) == RowNonZero(a) + RowNonZero(b)
  {
    if a != [] {
      assert (a + b)[1..] == a[1..] + b;
      RowNonZeroAppend(a[1..], b);
    } else {
      assert a + b == b;
    }
  }

  lemma {:induction false} RowCellsCount(row: seq<int>, y: nat, n: nat)
    requires n <= |row|
    ensures |RowCells(row, y, n)| == RowNonZero(row[..n])
  {
    if n > 0 {
      RowCellsCount(row, y, n - 1);
      assert row[..n] == row[..n - 1] + [row[n - 1]];
      RowNonZeroAppend(row[..n - 1], [row[n - 1]]);
      assert RowNonZero([row[n - 1]]) == if row[n - 1] != 0 then 1 else 0 by {
        assert [row[n - 1]][1..] == [];
      }
    }
  }

  lemma {:induction false} RowCellsMembers(row: seq<int>, y: nat, n: nat)
    requires n <= |row|
    ensures forall c :: c in RowCells(row, y, n) <==>
      c.row == y && c.col < n && row[c.col] == c.value && c.value != 0
  {
    if n > 0 {
      RowCellsMembers(row, y, n - 1);
    }
  }

  /** Appending a row-major block after another whose cells all come first stays row-major. */
  lemma RowMajorAppend(a: seq<Cell>, b: seq<Cell>)
    requires RowMajor(a) && RowMajor(b)
    requires forall c, d :: c in a && d in b ==> Before(c, d)
    ensures RowMajor(a + b)
  {
    forall i, j | 0 <= i < j < |a + b| ensures Before((a + b)[i], (a + b)[j]) {
      if j < |a| {
      } else if i >= |a| {
        assert (a + b)[i] == b[i - |a|] && (a + b)[j] == b[j - |a|];
      } else {
        assert (a + b)[i] in a && (a + b)[j] in b;
      }
    }
  }

  lemma {:induction false} RowCellsRowMajor(row: seq<int>, y: nat, n: nat)
    requires n <= |row|
    ensures RowMajor(RowCells(row, y, n))
  {
    if n > 0 {
      RowCellsRowMajor(row, y, n - 1);
      RowCellsMembers(row, y, n - 1);
      if row[n - 1] != 0 {
        RowMajorAppend(RowCells(row, y, n - 1), [Cell(y, n - 1, row[n - 1])]);
      }
    }
  }

  lemma {:induction false} GridCellsFacts(g: seq<seq<int>>, n: nat)
    requires n <= |g|
    ensures |GridCells(g, n)| == CountRows(g, n)
    ensures forall c :: c in GridCells(g, n) <==> c.row < n && IsNonZeroCell(g, c)
    ensures RowMajor(GridCells(g, n))
  {
    if n > 0 {
      var row := g[n - 1];
      GridCellsFacts(g, n - 1);
      RowCellsCount(row, n - 1, |row|);
      assert row[..|row|] == row;
      RowCellsMembers(row, n - 1, |row|);
      RowCellsRowMajor(row, n - 1, |row|);
      RowMajorAppend(GridCells(g, n - 1), RowCells(row, n - 1, |row|));
    }
  }

  /** Seeding visits exactly the non-zero cells of a grid, each once, in row-major order. */
  lemma CellsEnumerateNonZero(g: seq<seq<int>>)
    ensures |Cells(g)| == NonZeroCount(g)
    ensures forall c :: c in Cells(g) <==> IsNonZeroCell(g, c)
    ensures RowMajor(Cells(g))
  {
    GridCellsFacts(g, |g|);
  }

  /** The grids' shapes: Santa is a 20 by 14 rectangle; the tree is ragged, its
      first row having 12 entries and its three trunk rows only 11. */
  lemma PatternShapes()
    ensures |SantaPattern| == 20 && forall r :: 0 <= r < |SantaPattern| ==> |SantaPattern[r]| == 14
    ensures |TreePattern| == 17 && forall r :: 0 <= r < 14 ==> |TreePattern[r]| == 12
    ensures |TreePattern[14]| == 11 && |TreePattern[15]| == 11 && |TreePattern[16]| == 11
  {
  }

  /** Both grids use only the palette's colour indices. */
  lemma PatternsInPalette()
    ensures InPalette(SantaPattern) && InPalette(TreePattern)
  {
    SantaInPalette();
    TreeInPalette();
  }

  lemma SantaInPalette()
    ensures InPalette(SantaPattern)
  {
  }

  lemma TreeInPalette()
    ensures InPalette(TreePattern)
  {
  }
}
