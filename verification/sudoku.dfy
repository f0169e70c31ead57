/** The Sudoku encoder and decoder of Question1/q1.py: one variable per
    (row, column, number), the clause families that make a model a filled
    grid, and the scan that writes a model back into the grid. */
module Sudoku {
  import opened Cnf
  import opened Wrappers
  import Radix

  /** A cell and the number written in it. */
  datatype Entry = Entry(row: int, col: int, num: int)

  predicate InRange(n: int, e: Entry)
  {
    0 <= e.row < n && 0 <= e.col < n && 1 <= e.num <= n
  }

  /** `prop`: rows and columns count from 0, numbers from 1. */
  function Prop(n: int, row: int, col: int, num: int): (v: int)
    ensures InRange(n, Entry(row, col, num)) ==> 1 <= v <= n * n * n
  {
    // Both branches compute the same value; the first only hosts the range proof.
    if InRange(n, Entry(row, col, num)) then
      Radix.Digit(row, col, n, n);
      Radix.Digit(row * n + col, num - 1, n * n, n);
      (row * n + col) * n + num
    else
      (row * n + col) * n + num
  }

  /** The inverse numbering: which entry a variable in [1, n^3] stands for. */
  function Unprop(n: int, v: int): (e: Entry)
    requires n >= 1 && 1 <= v <= n * n * n
    ensures InRange(n, e) && Prop(n, e.row, e.col, e.num) == v
  {
    var u := v - 1;
    Radix.DivBelow(u, n, n * n);
    Radix.DivBelow(u / n, n, n);
    assert u == (u / n) * n + u % n;
    assert u / n == (u / n / n) * n + (u / n) % n;
    Entry(u / n / n, (u / n) % n, u % n + 1)
  }

  /** Distinct entries get distinct variables: Unprop undoes Prop. */
  lemma UnpropProp(n: int, e: Entry)
    requires n >= 1 && InRange(n, e)
    ensures Unprop(n, Prop(n, e.row, e.col, e.num)) == e
  {
    var q := e.row * n + e.col;
    var u := Prop(n, e.row, e.col, e.num) - 1;
    assert u == q * n + (e.num - 1);
    Radix.DivMod(q, e.num - 1, n);
    Radix.DivMod(e.row, e.col, n);
    assert u / n == q && u % n == e.num - 1;
    assert u / n / n == e.row && (u / n) % n == e.col;
  }

  lemma PropInjective(n: int, a: Entry, b: Entry)
    requires n >= 1 && InRange(n, a) && InRange(n, b)
    requires Prop(n, a.row, a.col, a.num) == Prop(n, b.row, b.col, b.num)
    ensures a == b
  {
    UnpropProp(n, a);
    UnpropProp(n, b);
  }

  /** Rows of a grid given as a list of lists; q1.py indexes grid[r][c] for r, c < n. */
  predicate Square(g: seq<seq<int>>, n: int)
  {
    |g| == n && forall r :: 0 <= r < |g| ==> |g[r]| == n
  }

  /** The grid as the list of its rows. */
  function Snapshot(grid: array2<int>): (s: seq<seq<int>>)
    reads grid
    ensures grid.Length0 == grid.Length1 ==> Square(s, grid.Length0)
  {
    seq(grid.Length0, r requires 0 <= r < grid.Length0 reads grid =>
      seq(grid.Length1, c requires 0 <= c < grid.Length1 reads grid => grid[r, c]))
  }

  // ---------------- clause families ----------------
  // Each loop level is a Gather (module Cnf) over the parts its iterations
  // append; a level whose counter starts at 1 has an empty part 0.

  /** [prop(r, c, num) for num in 1..n]: "cell (r, c) holds some number". */
  function CellLits(n: nat, r: int, c: int): Clause
  {
    seq(n, i => Prop(n, r, c, i + 1))
  }

  /** The clauses of one cell: its positive clause, then its pairwise exclusions. */
  function CellGroup(n: nat, r: int, c: int): seq<Clause>
  {
    [CellLits(n, r, c)] + AtMostOne(CellLits(n, r, c))
  }

  function CellGroupAt(n: nat, r: int): nat -> seq<Clause>
  {
    (c: nat) => CellGroup(n, r, c)
  }

  /** The groups of cells (r, 0) .. (r, c - 1). */
  function CellCols(n: nat, r: int, c: nat): seq<Clause>
  {
    Gather(CellGroupAt(n, r), c)
  }

  function CellColsAt(n: nat): nat -> seq<Clause>
  {
    (r: nat) => CellCols(n, r, n)
  }

  function CellRows(n: nat, r: nat): seq<Clause>
  {
    Gather(CellColsAt(n), r)
  }

  /** Family 1: every cell holds exactly one number. */
  function CellClauses(n: nat): seq<Clause>
  {
    CellRows(n, n)
  }

  /** [prop(r, c, num) for c in range(n)]: "row r holds num somewhere". */
  function RowLits(n: nat, r: int, num: int): Clause
  {
    seq(n, c => Prop(n, r, c, num))
  }

  function RowLitAt(n: nat, r: int): nat -> seq<Clause>
  {
    (num: nat) => if 1 <= num then [RowLits(n, r, num)] else []
  }

  /** The clauses "row r holds num" for 1 <= num < k. */
  function RowNums(n: nat, r: int, k: nat): seq<Clause>
  {
    Gather(RowLitAt(n, r), k)
  }

  function RowNumsAt(n: nat): nat -> seq<Clause>
  {
    (r: nat) => RowNums(n, r, n + 1)
  }

  function RowRows(n: nat, r: nat): seq<Clause>
  {
    Gather(RowNumsAt(n), r)
  }

  /** Family 2: every row holds every number. */
  function RowClauses(n: nat): seq<Clause>
  {
    RowRows(n, n)
  }

  /** [prop(r, c, num) for r in range(n)]: "column c holds num somewhere". */
  function ColLits(n: nat, c: int, num: int): Clause
  {
    seq(n, r => Prop(n, r, c, num))
  }

  function ColLitAt(n: nat, c: int): nat -> seq<Clause>
  {
    (num: nat) => if 1 <= num then [ColLits(n, c, num)] else []
  }

  /** The clauses "column c holds num" for 1 <= num < k. */
  function ColNums(n: nat, c: int, k: nat): seq<Clause>
  {
    Gather(ColLitAt(n, c), k)
  }

  function ColNumsAt(n: nat): nat -> seq<Clause>
  {
    (c: nat) => ColNums(n, c, n + 1)
  }

  function ColCols(n: nat, c: nat): seq<Clause>
  {
    Gather(ColNumsAt(n), c)
  }

  /** Family 3: every column holds every number. */
  function ColClauses(n: nat): seq<Clause>
  {
    ColCols(n, n)
  }

  /** The sub * sub literals of the block at (br, bc), rows outer and columns
      inner: literal a * sub + b is for cell (br + a, bc + b). */
  function BlockLits(n: nat, sub: nat, br: int, bc: int, num: int): Clause
  {
    seq(sub * sub, (k: int) requires 0 <= k < sub * sub => Prop(n, br + k / sub, bc + k % sub, num))
  }

  function BlockLitAt(n: nat, sub: nat, br: int, bc: int): nat -> seq<Clause>
  {
    (num: nat) => if 1 <= num then [BlockLits(n, sub, br, bc, num)] else []
  }

  /** The clauses "the block at (br, bc) holds num" for 1 <= num < k. */
  function BlockNums(n: nat, sub: nat, br: int, bc: int, k: nat): seq<Clause>
  {
    Gather(BlockLitAt(n, sub, br, bc), k)
  }

  /** Block j of block row br, whose left column is j * sub. */
  function BlockNumsAt(n: nat, sub: nat, br: int): nat -> seq<Clause>
  {
    (j: nat) => BlockNums(n, sub, br, j * sub, n + 1)
  }

  /** The blocks starting at column 0, sub, ..., (j - 1) * sub of block row br. */
  function BlockCols(n: nat, sub: nat, br: int, j: nat): seq<Clause>
  {
    Gather(BlockNumsAt(n, sub, br), j)
  }

  /** Block row i, whose top row is i * sub. */
  function BlockColsAt(n: nat, sub: nat): nat -> seq<Clause>
  {
    (i: nat) => BlockCols(n, sub, i * sub, sub)
  }

  /** The block rows starting at row 0, sub, ..., (i - 1) * sub. */
  function BlockRows(n: nat, sub: nat, i: nat): seq<Clause>
  {
    Gather(BlockColsAt(n, sub), i)
  }

  /** Family 4: every sub x sub block holds every number. */
  function BlockClauses(n: nat, sub: nat): seq<Clause>
  {
    BlockRows(n, sub, sub)
  }

  /** The unit clause of cell (r, c): one for a given number, none for a blank (0). */
  function GivenAt(n: nat, g: seq<seq<int>>, r: int, c: int): seq<Clause>
    requires 0 <= r < |g| && 0 <= c < |g[r]|
  {
    if g[r][c] != 0 then [[Prop(n, r, c, g[r][c])]] else []
  }

  function GivenCellAt(n: nat, g: seq<seq<int>>, r: int): nat -> seq<Clause>
  {
    (c: nat) => if 0 <= r < |g| && c < |g[r]| then GivenAt(n, g, r, c) else []
  }

  /** The unit clauses of cells (r, 0) .. (r, c - 1). */
  function GivenCols(n: nat, g: seq<seq<int>>, r: int, c: nat): seq<Clause>
  {
    Gather(GivenCellAt(n, g, r), c)
  }

  function GivenColsAt(n: nat, g: seq<seq<int>>): nat -> seq<Clause>
  {
    (r: nat) => GivenCols(n, g, r, n)
  }

  function GivenRows(n: nat, g: seq<seq<int>>, r: nat): seq<Clause>
  {
    Gather(GivenColsAt(n, g), r)
  }

  /** Family 5: the given numbers. */
  function GivenClauses(n: nat, g: seq<seq<int>>): seq<Clause>
  {
    GivenRows(n, g, n)
  }

  /** The whole formula, families in the order q1.py appends them. */
  function SudokuClauses(n: nat, sub: nat, g: seq<seq<int>>): seq<Clause>
  {
    CellClauses(n) + RowClauses(n) + ColClauses(n) + BlockClauses(n, sub) + GivenClauses(n, g)
  }

  // ---------------- the clause-generation loops ----------------

  /** The `for c` loop of the cell family for row `row`. */
  method EmitCellRow(cnf: seq<Clause>, n: nat, row: int) returns (r: seq<Clause>)
    ensures r == cnf + CellCols(n, row, n)
  {
    r := cnf;
    for col := 0 to n
      invariant r == cnf + CellCols(n, row, col)
    {
      var clause := CellLits(n, row, col);
      assert CellCols(n, row, col + 1) == CellCols(n, row, col) + ([clause] + AtMostOne(clause));
      ConcatAssoc(cnf + CellCols(n, row, col), [clause], AtMostOne(clause));
      ConcatAssoc(cnf, CellCols(n, row, col), [clause] + AtMostOne(clause));
      r := r + [clause];
      r := AppendAtMostOne(r, clause);
    }
  }

  method EmitCells(cnf: seq<Clause>, n: nat) returns (r: seq<Clause>)
    ensures r == cnf + CellClauses(n)
  {
    r := cnf;
    for row := 0 to n
      invariant r == cnf + CellRows(n, row)
    {
      ConcatAssoc(cnf, CellRows(n, row), CellCols(n, row, n));
      r := EmitCellRow(r, n, row);
    }
  }

  /** The `for num` loop of the row family for row `row`. */
  method EmitRowNums(cnf: seq<Clause>, n: nat, row: int) returns (r: seq<Clause>)
    ensures r == cnf + RowNums(n, row, n + 1)
  {
    r := cnf;
    for num := 1 to n + 1
      invariant r == cnf + RowNums(n, row, num)
    {
      ConcatAssoc(cnf, RowNums(n, row, num), [RowLits(n, row, num)]);
      r := r + [RowLits(n, row, num)];
    }
  }

  method EmitRows(cnf: seq<Clause>, n: nat) returns (r: seq<Clause>)
    ensures r == cnf + RowClauses(n)
  {
    r := cnf;
    for row := 0 to n
      invariant r == cnf + RowRows(n, row)
    {
      ConcatAssoc(cnf, RowRows(n, row), RowNums(n, row, n + 1));
      r := EmitRowNums(r, n, row);
    }
  }

  /** The `for num` loop of the column family for column `col`. */
  method EmitColNums(cnf: seq<Clause>, n: nat, col: int) returns (r: seq<Clause>)
    ensures r == cnf + ColNums(n, col, n + 1)
  {
    r := cnf;
    for num := 1 to n + 1
      invariant r == cnf + ColNums(n, col, num)
    {
      ConcatAssoc(cnf, ColNums(n, col, num), [ColLits(n, col, num)]);
      r := r + [ColLits(n, col, num)];
    }
  }

  method EmitCols(cnf: seq<Clause>, n: nat) returns (r: seq<Clause>)
    ensures r == cnf + ColClauses(n)
  {
    r := cnf;
    for col := 0 to n
      invariant r == cnf + ColCols(n, col)
    {
      ConcatAssoc(cnf, ColCols(n, col), ColNums(n, col, n + 1));
      r := EmitColNums(r, n, col);
    }
  }

  /** The `for num` loop of one block. */
  method EmitBlock(cnf: seq<Clause>, n: nat, sub: nat, br: int, bc: int) returns (r: seq<Clause>)
    ensures r == cnf + BlockNums(n, sub, br, bc, n + 1)
  {
    r := cnf;
    for num := 1 to n + 1
      invariant r == cnf + BlockNums(n, sub, br, bc, num)
    {
      ConcatAssoc(cnf, BlockNums(n, sub, br, bc, num), [BlockLits(n, sub, br, bc, num)]);
      r := r + [BlockLits(n, sub, br, bc, num)];
    }
  }

  /** The `for bc in range(0, n, sub)` loop of one block row. */
  method EmitBlockRow(cnf: seq<Clause>, n: nat, sub: nat, br: int) returns (r: seq<Clause>)
    requires sub >= 1 && n == sub * sub
    ensures r == cnf + BlockCols(n, sub, br, sub)
  {
    r := cnf;
    var bc := 0;
    ghost var j := 0;
    while bc < n
      invariant j <= sub && bc == j * sub
      invariant r == cnf + BlockCols(n, sub, br, j)
      decreases n - bc
    {
      Radix.ScaleLess(j, sub, sub);
      ConcatAssoc(cnf, BlockCols(n, sub, br, j), BlockNums(n, sub, br, bc, n + 1));
      r := EmitBlock(r, n, sub, br, bc);
      bc, j := bc + sub, j + 1;
      assert bc == j * sub;
    }
    Radix.ScaleLess(j, sub, sub);
  }

  /** The `for br in range(0, n, sub)` loop over block rows. */
  method EmitBlocks(cnf: seq<Clause>, n: nat, sub: nat) returns (r: seq<Clause>)
    requires sub >= 1 && n == sub * sub
    ensures r == cnf + BlockClauses(n, sub)
  {
    r := cnf;
    var br := 0;
    ghost var i := 0;
    while br < n
      invariant i <= sub && br == i * sub
      invariant r == cnf + BlockRows(n, sub, i)
      decreases n - br
    {
      Radix.ScaleLess(i, sub, sub);
      ConcatAssoc(cnf, BlockRows(n, sub, i), BlockCols(n, sub, br, sub));
      r := EmitBlockRow(r, n, sub, br);
      br, i := br + sub, i + 1;
      assert br == i * sub;
    }
    Radix.ScaleLess(i, sub, sub);
  }

  /** The `for c` loop of the givens for row `row`. */
  method EmitGivenRow(cnf: seq<Clause>, grid: array2<int>, row: int) returns (r: seq<Clause>)
    requires grid.Length0 == grid.Length1 && 0 <= row < grid.Length0
    ensures r == cnf + GivenCols(grid.Length0, Snapshot(grid), row, grid.Length0)
  {
    var n := grid.Length0;
    ghost var g := Snapshot(grid);
    r := cnf;
    for col := 0 to n
      invariant r == cnf + GivenCols(n, g, row, col)
    {
      assert g[row][col] == grid[row, col];
      ConcatAssoc(cnf, GivenCols(n, g, row, col), GivenAt(n, g, row, col));
      if grid[row, col] != 0 {
        r := r + [[Prop(n, row, col, grid[row, col])]];
      }
    }
  }

  method EmitGivens(cnf: seq<Clause>, grid: array2<int>) returns (r: seq<Clause>)
    requires grid.Length0 == grid.Length1
    ensures r == cnf + GivenClauses(grid.Length0, Snapshot(grid))
  {
    var n := grid.Length0;
    ghost var g := Snapshot(grid);
    r := cnf;
    for row := 0 to n
      invariant r == cnf + GivenRows(n, g, row)
    {
      ConcatAssoc(cnf, GivenRows(n, g, row), GivenCols(n, g, row, n));
      r := EmitGivenRow(r, grid, row);
    }
  }

  /** The clause generation of solve_sudoku; sub is the block side, int(n ** 0.5). */
  method EncodeSudoku(grid: array2<int>, sub: nat) returns (cnf: seq<Clause>)
    requires sub >= 1 && grid.Length0 == grid.Length1 == sub * sub
    ensures cnf == SudokuClauses(grid.Length0, sub, Snapshot(grid))
  {
    var n := grid.Length0;
    cnf := EmitCells([], n);
    assert cnf == CellClauses(n);
    cnf := EmitRows(cnf, n);
    cnf := EmitCols(cnf, n);
    cnf := EmitBlocks(cnf, n, sub);
    cnf := EmitGivens(cnf, grid);
  }

  // ---------------- decoding ----------------

  /** The smallest number in [num, n] whose variable for cell (r, c) the model
      makes true: the `for num ... break` scan. */
  function FirstTrue(model: seq<int>, n: int, r: int, c: int, num: int): (k: Option<int>)
    decreases n - num
    ensures k.Some? ==> num <= k.value <= n && ModelTrue(model, Prop(n, r, c, k.value))
    ensures k.Some? ==> forall j :: num <= j < k.value ==> !ModelTrue(model, Prop(n, r, c, j))
    ensures k.None? ==> forall j :: num <= j <= n ==> !ModelTrue(model, Prop(n, r, c, j))
  {
    if num > n then None
    else if ModelTrue(model, Prop(n, r, c, num)) then Some(num)
    else FirstTrue(model, n, r, c, num + 1)
  }

  /** What the decode loop leaves in cell (r, c): the first true number, or the old value. */
  function DecodedCell(model: seq<int>, n: int, r: int, c: int, old_value: int): int
  {
    match FirstTrue(model, n, r, c, 1)
    case Some(k) => k
    case None => old_value
  }

  /** The grid after decoding a model into grid g. */
  function DecodeGrid(model: seq<int>, n: int, g: seq<seq<int>>): (s: seq<seq<int>>)
    ensures |s| == |g| && forall r :: 0 <= r < |g| ==> |s[r]| == |g[r]|
  {
    seq(|g|, r requires 0 <= r < |g| =>
      seq(|g[r]|, c requires 0 <= c < |g[r]| => DecodedCell(model, n, r, c, g[r][c])))
  }

  /** The decode loop of solve_sudoku, writing into the grid in place. */
  method WriteModel(grid: array2<int>, model: seq<int>)
    requires grid.Length0 == grid.Length1
    requires |model| >= grid.Length0 * grid.Length0 * grid.Length0
    modifies grid
    ensures Snapshot(grid) == DecodeGrid(model, grid.Length0, old(Snapshot(grid)))
  {
    var n := grid.Length0;
    ghost var g := Snapshot(grid);
    for r := 0 to n
      invariant forall i, j :: 0 <= i < r && 0 <= j < n ==> grid[i, j] == DecodedCell(model, n, i, j, g[i][j])
      invariant forall i, j :: r <= i < n && 0 <= j < n ==> grid[i, j] == g[i][j]
    {
      for c := 0 to n
        invariant forall i, j :: 0 <= i < r && 0 <= j < n ==> grid[i, j] == DecodedCell(model, n, i, j, g[i][j])
        invariant forall j :: 0 <= j < c ==> grid[r, j] == DecodedCell(model, n, r, j, g[r][j])
        invariant forall i, j :: 0 <= i < n && 0 <= j < n && (i > r || (i == r && j >= c)) ==> grid[i, j] == g[i][j]
      {
        for num := 1 to n + 1
          invariant forall j :: 1 <= j < num ==> !ModelTrue(model, Prop(n, r, c, j))
          invariant grid[r, c] == g[r][c]
        {
          if model[Prop(n, r, c, num) - 1] > 0 {
            grid[r, c] := num;
            break;
          }
        }
      }
    }
    assert forall i :: 0 <= i < n ==> Snapshot(grid)[i] == DecodeGrid(model, n, g)[i];
  }
}
