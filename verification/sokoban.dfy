/** The Sokoban encoder object of Question2/q2.py: it parses the grid into
    its fields once, then `Encode` builds the clause list from them. */
module Sokoban {
  import opened Cnf
  import opened Wrappers
  import opened SokobanVars
  import opened SokobanClauses
  import opened SokobanEmit

  // ---------------- parsing ----------------

  /** Every row has at least m cells, so the parse may index (x, y) for y < m. */
  predicate Rect(grid: seq<seq<char>>, m: nat)
  {
    forall x :: 0 <= x < |grid| ==> |grid[x]| >= m
  }

  /** The cells of row x, among its first y, that hold ch, left to right. */
  function MarkedCols(grid: seq<seq<char>>, ch: char, x: int, y: nat): seq<Cell>
    requires 0 <= x < |grid| && y <= |grid[x]|
  {
    if y == 0 then []
    else MarkedCols(grid, ch, x, y - 1) + (if grid[x][y - 1] == ch then [Cell(x, y - 1)] else [])
  }

  /** The cells of the first x rows (m columns each) that hold ch, in row-major order. */
  function Marked(grid: seq<seq<char>>, m: nat, ch: char, x: nat): seq<Cell>
    requires x <= |grid| && Rect(grid, m)
  {
    if x == 0 then [] else Marked(grid, m, ch, x - 1) + MarkedCols(grid, ch, x - 1, m)
  }

  /** The last cell of cells, or prev when there is none: what repeated
      assignment of each cell in turn leaves behind. */
  function LastOr(prev: Option<Cell>, cells: seq<Cell>): Option<Cell>
  {
    if cells == [] then prev else Some(cells[|cells| - 1])
  }

  lemma LastOrConcat(prev: Option<Cell>, a: seq<Cell>, b: seq<Cell>)
    ensures LastOr(LastOr(prev, a), b) == LastOr(prev, a + b)
  {
    if b != [] {
      assert (a + b)[|a + b| - 1] == b[|b| - 1];
    }
  }

  class SokobanEncoder {
    var grid: seq<seq<char>>
    /** The caller's horizon plus one: time steps run over 0 .. T - 1. */
    var T: int
    var N: nat
    var M: nat
    var goals: seq<Cell>
    var boxes: seq<Cell>
    var walls: seq<Cell>
    var playerStart: Option<Cell>
    var numBoxes: nat

    /** The fields hold the parse of grid: the marked cells of each kind in
        row-major order, the last 'P' as the start. */
    ghost predicate Parsed()
      reads this
    {
      N == |grid| >= 1 && M == |grid[0]| && Rect(grid, M) &&
      goals == Marked(grid, M, 'G', N) && boxes == Marked(grid, M, 'B', N) &&
      walls == Marked(grid, M, '#', N) && playerStart == LastOr(None, Marked(grid, M, 'P', N)) &&
      numBoxes == |boxes|
    }

    constructor (grid: seq<seq<char>>, horizon: int)
      requires |grid| >= 1 && Rect(grid, |grid[0]|)
      ensures Parsed() && this.grid == grid && T == horizon + 1
    {
      this.grid := grid;
      T := horizon + 1;
      N := |grid|;
      M := |grid[0]|;
      goals := [];
      boxes := [];
      walls := [];
      playerStart := None;
      new;
      ParseGrid();
      assert goals == Marked(grid, M, 'G', N);
      assert boxes == Marked(grid, M, 'B', N);
      assert walls == Marked(grid, M, '#', N);
      numBoxes := |boxes|;
    }

    /** `_parse_grid`: appends each cell to the list its character names;
        every 'P' overwrites the start. */
    method ParseGrid()
      requires N == |grid| && Rect(grid, M)
      modifies this
      ensures grid == old(grid) && T == old(T) && N == old(N) && M == old(M) && numBoxes == old(numBoxes)
      ensures goals == old(goals) + Marked(grid, M, 'G', N)
      ensures boxes == old(boxes) + Marked(grid, M, 'B', N)
      ensures walls == old(walls) + Marked(grid, M, '#', N)
      ensures playerStart == LastOr(old(playerStart), Marked(grid, M, 'P', N))
    {
      for x := 0 to N
        invariant grid == old(grid) && T == old(T) && N == old(N) && M == old(M) && numBoxes == old(numBoxes)
        invariant goals == old(goals) + Marked(grid, M, 'G', x)
        invariant boxes == old(boxes) + Marked(grid, M, 'B', x)
        invariant walls == old(walls) + Marked(grid, M, '#', x)
        invariant playerStart == LastOr(old(playerStart), Marked(grid, M, 'P', x))
      {
        LastOrConcat(old(playerStart), Marked(grid, M, 'P', x), MarkedCols(grid, 'P', x, M));
        ParseRow(x);
      }
    }

    /** One row of `_parse_grid`. */
    method ParseRow(x: int)
      requires 0 <= x < N == |grid| && Rect(grid, M)
      modifies this
      ensures grid == old(grid) && T == old(T) && N == old(N) && M == old(M) && numBoxes == old(numBoxes)
      ensures goals == old(goals) + MarkedCols(grid, 'G', x, M)
      ensures boxes == old(boxes) + MarkedCols(grid, 'B', x, M)
      ensures walls == old(walls) + MarkedCols(grid, '#', x, M)
      ensures playerStart == LastOr(old(playerStart), MarkedCols(grid, 'P', x, M))
    {
      for y := 0 to M
        invariant grid == old(grid) && T == old(T) && N == old(N) && M == old(M) && numBoxes == old(numBoxes)
        invariant goals == old(goals) + MarkedCols(grid, 'G', x, y)
        invariant boxes == old(boxes) + MarkedCols(grid, 'B', x, y)
        invariant walls == old(walls) + MarkedCols(grid, '#', x, y)
        invariant playerStart == LastOr(old(playerStart), MarkedCols(grid, 'P', x, y))
      {
        LastOrConcat(old(playerStart), MarkedCols(grid, 'P', x, y), if grid[x][y] == 'P' then [Cell(x, y)] else []);
        if grid[x][y] == 'P' {
          playerStart := Some(Cell(x, y));
        } else if grid[x][y] == 'B' {
          boxes := boxes + [Cell(x, y)];
        } else if grid[x][y] == 'G' {
          goals := goals + [Cell(x, y)];
        } else if grid[x][y] == '#' {
          walls := walls + [Cell(x, y)];
        }
      }
    }

    /** The encoder's dimensions. */
    function Size(): Dims
      reads this
      requires T >= 0
    {
      Dims(N, M, T, numBoxes)
    }

    /** What `encode` reads from the fields. */
    function Inst(): Instance
      reads this
      requires T >= 1 && playerStart.Some?
    {
      Instance(Size(), playerStart.value, boxes, goals, walls)
    }

    /** `encode`: needs a player on the grid and a horizon of at least 0 (the
        clauses for time 0 name variables of step 0). */
    method Encode() returns (cnf: seq<Clause>)
      requires Parsed() && T >= 1 && playerStart.Some?
      ensures Valid(Inst()) && cnf == Clauses(Inst())
    {
      ParsedValid(this);
      var d := Dims(N, M, T, numBoxes);
      var start := playerStart.value;
      cnf := [[VarPlayer(d, start.x, start.y, 0)]];
      cnf := EmitBoxInits(d, boxes, cnf);
      cnf := EmitGoals(d, goals, cnf);
      cnf := EmitWalls(d, walls, cnf);
      cnf := cnf + [[VarMove(d, 9, 0)]];
      cnf := EmitMoves(d, cnf);
      cnf := EmitPushes(d, cnf);
      cnf := EmitOverlaps(d, cnf);
      cnf := EmitFinals(d, cnf);
      cnf := EmitActions(d, cnf);
      cnf := EmitUniques(d, cnf);
      cnf := EmitStays(d, cnf);
    }
  }

  // ---------------- what the parse yields ----------------

  /** a comes strictly before b in row-major order. */
  predicate Before(a: Cell, b: Cell)
  {
    a.x < b.x || (a.x == b.x && a.y < b.y)
  }

  predicate RowMajor(cells: seq<Cell>)
  {
    forall i, j :: 0 <= i < j < |cells| ==> Before(cells[i], cells[j])
  }

  lemma {:induction false} MarkedColsIff(grid: seq<seq<char>>, ch: char, x: int, y: nat, c: Cell)
    requires 0 <= x < |grid| && y <= |grid[x]|
    ensures c in MarkedCols(grid, ch, x, y) <==> c.x == x && 0 <= c.y < y && grid[x][c.y] == ch
  {
    if y > 0 {
      MarkedColsIff(grid, ch, x, y - 1, c);
    }
  }

  lemma {:induction false} MarkedColsOrder(grid: seq<seq<char>>, ch: char, x: int, y: nat)
    requires 0 <= x < |grid| && y <= |grid[x]|
    ensures RowMajor(MarkedCols(grid, ch, x, y))
  {
    if y > 0 {
      MarkedColsOrder(grid, ch, x, y - 1);
      var prev := MarkedCols(grid, ch, x, y - 1);
      var all := MarkedCols(grid, ch, x, y);
      forall i, j | 0 <= i < j < |all|
        ensures Before(all[i], all[j])
      {
        if j >= |prev| {
          assert all[j] == Cell(x, y - 1) && all[i] == prev[i];
          MarkedColsIff(grid, ch, x, y - 1, prev[i]);
        }
      }
    }
  }

  lemma {:induction false} MarkedHas(grid: seq<seq<char>>, m: nat, ch: char, x: nat, c: Cell)
    requires x <= |grid| && Rect(grid, m)
    requires 0 <= c.x < x && 0 <= c.y < m && grid[c.x][c.y] == ch
    ensures c in Marked(grid, m, ch, x)
  {
    var a := Marked(grid, m, ch, x - 1);
    var b := MarkedCols(grid, ch, x - 1, m);
    InConcat(a, b, c);
    if c.x < x - 1 {
      MarkedHas(grid, m, ch, x - 1, c);
    } else {
      MarkedColsIff(grid, ch, x - 1, m, c);
    }
  }

  lemma {:induction false} MarkedOnly(grid: seq<seq<char>>, m: nat, ch: char, x: nat, c: Cell)
    requires x <= |grid| && Rect(grid, m)
    requires c in Marked(grid, m, ch, x)
    ensures 0 <= c.x < x && 0 <= c.y < m && grid[c.x][c.y] == ch
  {
    var a := Marked(grid, m, ch, x - 1);
    var b := MarkedCols(grid, ch, x - 1, m);
    InConcat(a, b, c);
    if c in a {
      MarkedOnly(grid, m, ch, x - 1, c);
    } else {
      MarkedColsIff(grid, ch, x - 1, m, c);
    }
  }

  /** A cell is listed exactly when it is on the grid and holds ch. */
  lemma MarkedIff(grid: seq<seq<char>>, m: nat, ch: char, x: nat, c: Cell)
    requires x <= |grid| && Rect(grid, m)
    ensures c in Marked(grid, m, ch, x) <==> 0 <= c.x < x && 0 <= c.y < m && grid[c.x][c.y] == ch
  {
    if c in Marked(grid, m, ch, x) {
      MarkedOnly(grid, m, ch, x, c);
    } else if 0 <= c.x < x && 0 <= c.y < m && grid[c.x][c.y] == ch {
      MarkedHas(grid, m, ch, x, c);
    }
  }

  /** Two row-major lists, the first wholly before the second, join into one. */
  lemma RowMajorConcat(a: seq<Cell>, b: seq<Cell>)
    requires RowMajor(a) && RowMajor(b)
    requires forall i, j :: 0 <= i < |a| && 0 <= j < |b| ==> Before(a[i], b[j])
    ensures RowMajor(a + b)
  {
    var ab := a + b;
    forall i, j | 0 <= i < j < |ab| ensures Before(ab[i], ab[j]) {
      if j < |a| {
        assert ab[i] == a[i] && ab[j] == a[j];
      } else if i >= |a| {
        assert ab[i] == b[i - |a|] && ab[j] == b[j - |a|];
      } else {
        assert ab[i] == a[i] && ab[j] == b[j - |a|];
      }
    }
  }

  /** The listed cells come in row-major order, each once. */
  lemma {:induction false} MarkedOrder(grid: seq<seq<char>>, m: nat, ch: char, x: nat)
    requires x <= |grid| && Rect(grid, m)
    ensures RowMajor(Marked(grid, m, ch, x))
  {
    if x > 0 {
      MarkedOrder(grid, m, ch, x - 1);
      MarkedColsOrder(grid, ch, x - 1, m);
      MarkedBeforeRow(grid, m, ch, x - 1);
      RowMajorConcat(Marked(grid, m, ch, x - 1), MarkedCols(grid, ch, x - 1, m));
    }
  }

  /** The cells listed from the rows above x come before those of row x. */
  lemma MarkedBeforeRow(grid: seq<seq<char>>, m: nat, ch: char, x: nat)
    requires x < |grid| && Rect(grid, m)
    ensures forall i, j :: 0 <= i < |Marked(grid, m, ch, x)| && 0 <= j < |MarkedCols(grid, ch, x, m)| ==>
              Before(Marked(grid, m, ch, x)[i], MarkedCols(grid, ch, x, m)[j])
  {
    var a, b := Marked(grid, m, ch, x), MarkedCols(grid, ch, x, m);
    forall i, j | 0 <= i < |a| && 0 <= j < |b|
      ensures Before(a[i], b[j])
    {
      MarkedOnly(grid, m, ch, x, a[i]);
      MarkedColsIff(grid, ch, x, m, b[j]);
    }
  }

  /** After parsing, boxes, goals and walls are exactly the cells holding
      'B', 'G' and '#', listed in row-major order. */
  lemma ParsedCells(e: SokobanEncoder, c: Cell)
    requires e.Parsed()
    ensures c in e.boxes <==> InGrid(Dims(e.N, e.M, 0, 0), c) && e.grid[c.x][c.y] == 'B'
    ensures c in e.goals <==> InGrid(Dims(e.N, e.M, 0, 0), c) && e.grid[c.x][c.y] == 'G'
    ensures c in e.walls <==> InGrid(Dims(e.N, e.M, 0, 0), c) && e.grid[c.x][c.y] == '#'
    ensures RowMajor(e.boxes) && RowMajor(e.goals) && RowMajor(e.walls)
  {
    MarkedIff(e.grid, e.M, 'B', e.N, c);
    MarkedIff(e.grid, e.M, 'G', e.N, c);
    MarkedIff(e.grid, e.M, '#', e.N, c);
    MarkedOrder(e.grid, e.M, 'B', e.N);
    MarkedOrder(e.grid, e.M, 'G', e.N);
    MarkedOrder(e.grid, e.M, '#', e.N);
  }

  /** In a row-major list every cell is the last one or comes before it. */
  lemma LastIsLatest(cells: seq<Cell>, c: Cell)
    requires RowMajor(cells) && c in cells
    ensures c == cells[|cells| - 1] || Before(c, cells[|cells| - 1])
  {
    var i :| 0 <= i < |cells| && cells[i] == c;
    if i < |cells| - 1 {
      assert Before(cells[i], cells[|cells| - 1]);
    }
  }

  /** The start is the last 'P' in row-major order; there is none only when
      no cell holds 'P'. */
  lemma ParsedStart(e: SokobanEncoder)
    requires e.Parsed()
    ensures e.playerStart.None? <==> forall x, y :: 0 <= x < e.N && 0 <= y < e.M ==> e.grid[x][y] != 'P'
    ensures e.playerStart.Some? ==>
              var c := e.playerStart.value;
              InGrid(Dims(e.N, e.M, 0, 0), c) && e.grid[c.x][c.y] == 'P' &&
              forall x, y :: 0 <= x < e.N && 0 <= y < e.M && e.grid[x][y] == 'P' ==> Cell(x, y) == c || Before(Cell(x, y), c)
  {
    var ps := Marked(e.grid, e.M, 'P', e.N);
    MarkedOrder(e.grid, e.M, 'P', e.N);
    forall x, y | 0 <= x < e.N && 0 <= y < e.M
      ensures e.grid[x][y] == 'P' <==> Cell(x, y) in ps
    {
      MarkedIff(e.grid, e.M, 'P', e.N, Cell(x, y));
    }
    if ps != [] {
      var last := ps[|ps| - 1];
      MarkedIff(e.grid, e.M, 'P', e.N, last);
      forall x, y | 0 <= x < e.N && 0 <= y < e.M && e.grid[x][y] == 'P'
        ensures Cell(x, y) == last || Before(Cell(x, y), last)
      {
        LastIsLatest(ps, Cell(x, y));
      }
    }
  }

  /** A parsed encoder with a player and a horizon of at least 0 is an
      instance the clause functions accept: every box and wall is on the grid. */
  lemma ParsedValid(e: SokobanEncoder)
    requires e.Parsed() && e.T >= 1 && e.playerStart.Some?
    ensures Valid(e.Inst())
  {
    var d := e.Size();
    forall k | 0 <= k < |e.boxes|
      ensures InGrid(d, e.boxes[k])
    {
      MarkedIff(e.grid, e.M, 'B', e.N, e.boxes[k]);
    }
    forall k | 0 <= k < |e.walls|
      ensures InGrid(d, e.walls[k])
    {
      MarkedIff(e.grid, e.M, '#', e.N, e.walls[k]);
    }
    var ps := Marked(e.grid, e.M, 'P', e.N);
    MarkedIff(e.grid, e.M, 'P', e.N, ps[|ps| - 1]);
  }
}
