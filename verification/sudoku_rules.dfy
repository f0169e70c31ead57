/** What a solved Sudoku is, and the two directions that make the encoding of
    module Sudoku correct: a solution of the puzzle gives a model of the
    clauses, and every model of the clauses decodes to a solution. */
module SudokuRules {
  import opened Cnf
  import opened Wrappers
  import opened Sudoku
  import Radix

  /** A puzzle: an n x n grid of blanks (0) and numbers 1..n. */
  predicate Puzzle(g: seq<seq<int>>, n: int)
  {
    Square(g, n) && forall r, c :: 0 <= r < n && 0 <= c < n ==> 0 <= g[r][c] <= n
  }

  /** An n x n grid with a number 1..n in every cell. */
  predicate Filled(s: seq<seq<int>>, n: int)
  {
    Square(s, n) && forall r, c :: 0 <= r < n && 0 <= c < n ==> 1 <= s[r][c] <= n
  }

  predicate RowHas(s: seq<seq<int>>, r: int, num: int)
    requires 0 <= r < |s|
  {
    exists c :: 0 <= c < |s[r]| && s[r][c] == num
  }

  predicate ColHas(s: seq<seq<int>>, c: int, num: int)
  {
    exists r :: 0 <= r < |s| && 0 <= c < |s[r]| && s[r][c] == num
  }

  /** Cell (a, b) of block (i, j), the sub x sub square whose top-left cell
      is (i * sub, j * sub). */
  function BlockCell(s: seq<seq<int>>, n: int, sub: int, i: int, j: int, a: int, b: int): int
    requires Square(s, n) && 0 <= i * sub + a < n && 0 <= j * sub + b < n
  {
    s[i * sub + a][j * sub + b]
  }

  predicate BlockHas(s: seq<seq<int>>, n: int, sub: int, i: int, j: int, num: int)
    requires Square(s, n)
  {
    exists a, b :: 0 <= a < sub && 0 <= b < sub && 0 <= i * sub + a < n && 0 <= j * sub + b < n &&
      BlockCell(s, n, sub, i, j, a, b) == num
  }

  predicate RowsComplete(s: seq<seq<int>>, n: int)
    requires Square(s, n)
  {
    forall r, num :: 0 <= r < n && 1 <= num <= n ==> RowHas(s, r, num)
  }

  predicate ColsComplete(s: seq<seq<int>>, n: int)
  {
    forall c, num :: 0 <= c < n && 1 <= num <= n ==> ColHas(s, c, num)
  }

  predicate BlocksComplete(s: seq<seq<int>>, n: int, sub: int)
    requires Square(s, n)
  {
    forall i, j, num :: 0 <= i < sub && 0 <= j < sub && 1 <= num <= n ==> BlockHas(s, n, sub, i, j, num)
  }

  /** The rules of Sudoku: every cell holds a number and every row, column
      and block holds every number (so, having n cells, each exactly once). */
  predicate Solved(s: seq<seq<int>>, n: int, sub: int)
  {
    Filled(s, n) && RowsComplete(s, n) && ColsComplete(s, n) && BlocksComplete(s, n, sub)
  }

  /** s keeps every given number of g. */
  predicate Extends(g: seq<seq<int>>, s: seq<seq<int>>, n: int)
  {
    Square(g, n) && Square(s, n) &&
    forall r, c :: 0 <= r < n && 0 <= c < n && g[r][c] != 0 ==> s[r][c] == g[r][c]
  }

  // ---------------- from a solution to a model ----------------

  /** m makes the variable of (r, c, num) true exactly when s[r][c] == num. */
  predicate Represents(m: seq<int>, s: seq<seq<int>>, n: int)
  {
    Square(s, n) && |m| >= n * n * n &&
    forall r, c, num :: 0 <= r < n && 0 <= c < n && 1 <= num <= n ==>
      (ModelTrue(m, Prop(n, r, c, num)) <==> s[r][c] == num)
  }

  function EntrySign(s: seq<seq<int>>, n: int, v: int): int
    requires n >= 1 && Square(s, n) && 1 <= v <= n * n * n
  {
    var e := Unprop(n, v);
    if s[e.row][e.col] == e.num then v else -v
  }

  /** The model that makes variable prop(r, c, num) true exactly when s[r][c] == num. */
  function SolutionModel(s: seq<seq<int>>, n: int): (m: seq<int>)
    requires n >= 1 && Square(s, n)
    ensures |m| == n * n * n
  {
    seq(n * n * n, k requires 0 <= k < n * n * n && n >= 1 && Square(s, n) => EntrySign(s, n, k + 1))
  }

  lemma SolutionModelRepresents(s: seq<seq<int>>, n: int)
    requires n >= 1 && Square(s, n)
    ensures Represents(SolutionModel(s, n), s, n)
  {
    var m := SolutionModel(s, n);
    forall r, c, num | 0 <= r < n && 0 <= c < n && 1 <= num <= n
      ensures ModelTrue(m, Prop(n, r, c, num)) <==> s[r][c] == num
    {
      UnpropProp(n, Entry(r, c, num));
    }
  }

  /** The whole formula holds exactly when each of its five families does. */
  lemma SudokuClausesIff(m: seq<int>, n: nat, sub: nat, g: seq<seq<int>>)
    ensures Satisfies(m, SudokuClauses(n, sub, g)) <==>
            Satisfies(m, CellClauses(n)) && Satisfies(m, RowClauses(n)) && Satisfies(m, ColClauses(n)) &&
            Satisfies(m, BlockClauses(n, sub)) && Satisfies(m, GivenClauses(n, g))
  {
    SatisfiesConcat(m, CellClauses(n), RowClauses(n));
    SatisfiesConcat(m, CellClauses(n) + RowClauses(n), ColClauses(n));
    SatisfiesConcat(m, CellClauses(n) + RowClauses(n) + ColClauses(n), BlockClauses(n, sub));
    SatisfiesConcat(m, CellClauses(n) + RowClauses(n) + ColClauses(n) + BlockClauses(n, sub), GivenClauses(n, g));
  }

  /** Literal a * sub + b of a block clause is the variable of cell (br + a, bc + b). */
  lemma BlockLitIndex(n: nat, sub: nat, br: int, bc: int, num: int, a: int, b: int)
    requires sub >= 1 && 0 <= a < sub && 0 <= b < sub
    ensures 0 <= a * sub + b < sub * sub
    ensures BlockLits(n, sub, br, bc, num)[a * sub + b] == Prop(n, br + a, bc + b, num)
  {
    Radix.Digit(a, b, sub, sub);
    Radix.DivMod(a, b, sub);
  }

  // ---------------- completeness: a solution gives a model ----------------

  lemma CellGroupTrue(m: seq<int>, s: seq<seq<int>>, n: int, r: int, c: int)
    requires n >= 1 && Filled(s, n) && Represents(m, s, n) && 0 <= r < n && 0 <= c < n
    ensures Satisfies(m, CellGroup(n, r, c))
  {
    var lits := CellLits(n, r, c);
    assert LitTrue(m, lits[s[r][c] - 1]);
    AtMostOneComplete(m, lits);
  }

  lemma CellsTrue(m: seq<int>, s: seq<seq<int>>, n: nat)
    requires n >= 1 && Filled(s, n) && Represents(m, s, n)
    ensures Satisfies(m, CellClauses(n))
  {
    forall r: nat | r < n ensures Satisfies(m, CellColsAt(n)(r)) {
      forall c: nat | c < n ensures Satisfies(m, CellGroupAt(n, r)(c)) {
        CellGroupTrue(m, s, n, r, c);
      }
      GatherAll(m, CellGroupAt(n, r), n);
    }
    GatherAll(m, CellColsAt(n), n);
  }

  lemma RowsTrue(m: seq<int>, s: seq<seq<int>>, n: nat)
    requires n >= 1 && Filled(s, n) && RowsComplete(s, n) && Represents(m, s, n)
    ensures Satisfies(m, RowClauses(n))
  {
    forall r: nat | r < n ensures Satisfies(m, RowNumsAt(n)(r)) {
      forall num: nat | num < n + 1 ensures Satisfies(m, RowLitAt(n, r)(num)) {
        if 1 <= num {
          assert RowHas(s, r, num);
          var c :| 0 <= c < n && s[r][c] == num;
          assert LitTrue(m, RowLits(n, r, num)[c]);
          SatisfiesUnit(m, RowLits(n, r, num));
        }
      }
      GatherAll(m, RowLitAt(n, r), n + 1);
    }
    GatherAll(m, RowNumsAt(n), n);
  }

  lemma ColsTrue(m: seq<int>, s: seq<seq<int>>, n: nat)
    requires n >= 1 && Filled(s, n) && ColsComplete(s, n) && Represents(m, s, n)
    ensures Satisfies(m, ColClauses(n))
  {
    forall c: nat | c < n ensures Satisfies(m, ColNumsAt(n)(c)) {
      forall num: nat | num < n + 1 ensures Satisfies(m, ColLitAt(n, c)(num)) {
        if 1 <= num {
          assert ColHas(s, c, num);
          var r :| 0 <= r < n && s[r][c] == num;
          assert LitTrue(m, ColLits(n, c, num)[r]);
          SatisfiesUnit(m, ColLits(n, c, num));
        }
      }
      GatherAll(m, ColLitAt(n, c), n + 1);
    }
    GatherAll(m, ColNumsAt(n), n);
  }

  lemma BlockTrue(m: seq<int>, s: seq<seq<int>>, n: nat, sub: nat, i: int, j: int, num: int)
    requires sub >= 1 && n == sub * sub && Filled(s, n) && BlocksComplete(s, n, sub) && Represents(m, s, n)
    requires 0 <= i < sub && 0 <= j < sub && 1 <= num <= n
    ensures ClauseTrue(m, BlockLits(n, sub, i * sub, j * sub, num))
  {
    assert BlockHas(s, n, sub, i, j, num);
    var a, b :| 0 <= a < sub && 0 <= b < sub && 0 <= i * sub + a < n && 0 <= j * sub + b < n &&
      BlockCell(s, n, sub, i, j, a, b) == num;
    BlockLitIndex(n, sub, i * sub, j * sub, num, a, b);
    assert LitTrue(m, BlockLits(n, sub, i * sub, j * sub, num)[a * sub + b]);
  }

  lemma BlocksTrue(m: seq<int>, s: seq<seq<int>>, n: nat, sub: nat)
    requires sub >= 1 && n == sub * sub && Filled(s, n) && BlocksComplete(s, n, sub) && Represents(m, s, n)
    ensures Satisfies(m, BlockClauses(n, sub))
  {
    forall i: nat | i < sub ensures Satisfies(m, BlockColsAt(n, sub)(i)) {
      forall j: nat | j < sub ensures Satisfies(m, BlockNumsAt(n, sub, i * sub)(j)) {
        forall num: nat | num < n + 1 ensures Satisfies(m, BlockLitAt(n, sub, i * sub, j * sub)(num)) {
          if 1 <= num {
            BlockTrue(m, s, n, sub, i, j, num);
            SatisfiesUnit(m, BlockLits(n, sub, i * sub, j * sub, num));
          }
        }
        GatherAll(m, BlockLitAt(n, sub, i * sub, j * sub), n + 1);
      }
      GatherAll(m, BlockNumsAt(n, sub, i * sub), sub);
    }
    GatherAll(m, BlockColsAt(n, sub), sub);
  }

  lemma GivensTrue(m: seq<int>, g: seq<seq<int>>, s: seq<seq<int>>, n: nat)
    requires n >= 1 && Puzzle(g, n) && Filled(s, n) && Extends(g, s, n) && Represents(m, s, n)
    ensures Satisfies(m, GivenClauses(n, g))
  {
    forall r: nat | r < n ensures Satisfies(m, GivenColsAt(n, g)(r)) {
      forall c: nat | c < n ensures Satisfies(m, GivenCellAt(n, g, r)(c)) {
        if g[r][c] != 0 {
          var unit := [Prop(n, r, c, g[r][c])];
          assert LitTrue(m, unit[0]);
          SatisfiesUnit(m, unit);
        }
      }
      GatherAll(m, GivenCellAt(n, g, r), n);
    }
    GatherAll(m, GivenColsAt(n, g), n);
  }

  /** Completeness: a solution of the puzzle that keeps its givens yields a
      model of the clauses, so an unsatisfiable answer means there is no solution. */
  lemma SolutionSatisfies(g: seq<seq<int>>, s: seq<seq<int>>, n: nat, sub: nat)
    requires sub >= 1 && n == sub * sub && Puzzle(g, n)
    requires Solved(s, n, sub) && Extends(g, s, n)
    ensures Satisfies(SolutionModel(s, n), SudokuClauses(n, sub, g))
  {
    var m := SolutionModel(s, n);
    SolutionModelRepresents(s, n);
    CellsTrue(m, s, n);
    RowsTrue(m, s, n);
    ColsTrue(m, s, n);
    BlocksTrue(m, s, n, sub);
    GivensTrue(m, g, s, n);
    SudokuClausesIff(m, n, sub, g);
  }

  // ---------------- soundness: a model decodes to a solution ----------------

  /** In a model of the clauses of cell (r, c), exactly one number's variable
      is true, and the decoder's scan finds it. */
  lemma DecodedCellTrue(m: seq<int>, n: int, r: int, c: int, old_value: int)
    requires n >= 1 && 0 <= r < n && 0 <= c < n
    requires Satisfies(m, CellGroup(n, r, c))
    ensures 1 <= DecodedCell(m, n, r, c, old_value) <= n
    ensures forall k :: 1 <= k <= n ==> (ModelTrue(m, Prop(n, r, c, k)) <==> k == DecodedCell(m, n, r, c, old_value))
  {
    var lits := CellLits(n, r, c);
    assert lits in CellGroup(n, r, c);
    var j :| 0 <= j < |lits| && LitTrue(m, lits[j]);
    assert ModelTrue(m, Prop(n, r, c, j + 1));
    var d := FirstTrue(m, n, r, c, 1);
    assert d.Some?;
    SatisfiesConcat(m, [lits], AtMostOne(lits));
    AtMostOneSound(m, lits);
    forall k | 1 <= k <= n ensures ModelTrue(m, Prop(n, r, c, k)) ==> k == d.value {
      assert lits[k - 1] == Prop(n, r, c, k);
      assert lits[d.value - 1] == Prop(n, r, c, d.value);
    }
  }

  /** The last entry's variable is n^3, the largest of all. */
  lemma LastProp(n: nat)
    requires n >= 1
    ensures Prop(n, n - 1, n - 1, n) == n * n * n
  {
  }

  /** A model of the last cell's clauses holds variable n^3: one of that
      cell's numbers is true, and unless it is n itself, its exclusion clause
      with number n needs n's variable in the model. */
  lemma LastCellReach(m: seq<int>, n: nat)
    requires n >= 1 && Satisfies(m, CellGroup(n, n - 1, n - 1))
    ensures |m| >= n * n * n
  {
    var lits := CellLits(n, n - 1, n - 1);
    SatisfiesConcat(m, [lits], AtMostOne(lits));
    SatisfiesUnit(m, lits);
    SomeTrue(m, lits);
    var j :| 0 <= j < n && ModelTrue(m, lits[j]);
    LastProp(n);
    assert lits[n - 1] == n * n * n;
    if j < n - 1 {
      AtMostOneHas(lits, j, n - 1);
      ExcludedInside(m, lits[j], lits[n - 1]);
    }
  }

  /** Every model of the formula holds all n^3 variables, so the decode loop's
      `model[prop(r, c, num) - 1]` never reads past its end. */
  lemma ModelReachesCells(m: seq<int>, n: nat, sub: nat, g: seq<seq<int>>)
    requires Satisfies(m, SudokuClauses(n, sub, g))
    ensures |m| >= n * n * n
  {
    if n >= 1 {
      SudokuClausesIff(m, n, sub, g);
      GatherPart(m, CellColsAt(n), n, n - 1);
      GatherPart(m, CellGroupAt(n, n - 1), n, n - 1);
      LastCellReach(m, n);
    }
  }

  /** A model of the cell clauses fills every cell, and the filled grid is
      exactly what the model says. */
  lemma DecodedCells(m: seq<int>, g: seq<seq<int>>, n: nat)
    requires n >= 1 && Square(g, n) && Satisfies(m, CellClauses(n))
    ensures Filled(DecodeGrid(m, n, g), n) && Represents(m, DecodeGrid(m, n, g), n)
  {
    var d := DecodeGrid(m, n, g);
    GatherPart(m, CellColsAt(n), n, n - 1);
    GatherPart(m, CellGroupAt(n, n - 1), n, n - 1);
    LastCellReach(m, n);
    forall r, c | 0 <= r < n && 0 <= c < n
      ensures 1 <= d[r][c] <= n
      ensures forall num :: 1 <= num <= n ==> (ModelTrue(m, Prop(n, r, c, num)) <==> d[r][c] == num)
    {
      GatherPart(m, CellColsAt(n), n, r);
      GatherPart(m, CellGroupAt(n, r), n, c);
      DecodedCellTrue(m, n, r, c, g[r][c]);
    }
  }

  lemma DecodedRows(m: seq<int>, d: seq<seq<int>>, n: nat)
    requires n >= 1 && Filled(d, n) && Represents(m, d, n) && Satisfies(m, RowClauses(n))
    ensures RowsComplete(d, n)
  {
    forall r, num | 0 <= r < n && 1 <= num <= n ensures RowHas(d, r, num) {
      GatherPart(m, RowNumsAt(n), n, r);
      GatherPart(m, RowLitAt(n, r), n + 1, num);
      var lits := RowLits(n, r, num);
      SatisfiesUnit(m, lits);
      var c :| 0 <= c < |lits| && LitTrue(m, lits[c]);
      assert ModelTrue(m, Prop(n, r, c, num));
    }
  }

  lemma DecodedCols(m: seq<int>, d: seq<seq<int>>, n: nat)
    requires n >= 1 && Filled(d, n) && Represents(m, d, n) && Satisfies(m, ColClauses(n))
    ensures ColsComplete(d, n)
  {
    forall c, num | 0 <= c < n && 1 <= num <= n ensures ColHas(d, c, num) {
      GatherPart(m, ColNumsAt(n), n, c);
      GatherPart(m, ColLitAt(n, c), n + 1, num);
      var lits := ColLits(n, c, num);
      SatisfiesUnit(m, lits);
      var r :| 0 <= r < |lits| && LitTrue(m, lits[r]);
      assert ModelTrue(m, Prop(n, r, c, num));
    }
  }

  lemma DecodedBlock(m: seq<int>, d: seq<seq<int>>, n: nat, sub: nat, i: int, j: int, num: int)
    requires sub >= 1 && n == sub * sub && Filled(d, n) && Represents(m, d, n)
    requires 0 <= i < sub && 0 <= j < sub && 1 <= num <= n
    requires ClauseTrue(m, BlockLits(n, sub, i * sub, j * sub, num))
    ensures BlockHas(d, n, sub, i, j, num)
  {
    var lits := BlockLits(n, sub, i * sub, j * sub, num);
    var k :| 0 <= k < |lits| && LitTrue(m, lits[k]);
    var a, b := k / sub, k % sub;
    Radix.DivBelow(k, sub, sub);
    assert lits[k] == Prop(n, i * sub + a, j * sub + b, num);
    Radix.Digit(i, a, sub, sub);
    Radix.Digit(j, b, sub, sub);
    assert ModelTrue(m, Prop(n, i * sub + a, j * sub + b, num));
    assert BlockCell(d, n, sub, i, j, a, b) == num;
  }

  lemma DecodedBlocks(m: seq<int>, d: seq<seq<int>>, n: nat, sub: nat)
    requires sub >= 1 && n == sub * sub && Filled(d, n) && Represents(m, d, n)
    requires Satisfies(m, BlockClauses(n, sub))
    ensures BlocksComplete(d, n, sub)
  {
    forall i, j, num | 0 <= i < sub && 0 <= j < sub && 1 <= num <= n ensures BlockHas(d, n, sub, i, j, num) {
      GatherPart(m, BlockColsAt(n, sub), sub, i);
      GatherPart(m, BlockNumsAt(n, sub, i * sub), sub, j);
      GatherPart(m, BlockLitAt(n, sub, i * sub, j * sub), n + 1, num);
      SatisfiesUnit(m, BlockLits(n, sub, i * sub, j * sub, num));
      DecodedBlock(m, d, n, sub, i, j, num);
    }
  }

  lemma DecodedGivens(m: seq<int>, g: seq<seq<int>>, d: seq<seq<int>>, n: nat)
    requires n >= 1 && Puzzle(g, n) && Square(d, n) && Represents(m, d, n)
    requires Satisfies(m, GivenClauses(n, g))
    ensures Extends(g, d, n)
  {
    forall r, c | 0 <= r < n && 0 <= c < n && g[r][c] != 0 ensures d[r][c] == g[r][c] {
      GatherPart(m, GivenColsAt(n, g), n, r);
      GatherPart(m, GivenCellAt(n, g, r), n, c);
      var unit := [Prop(n, r, c, g[r][c])];
      assert GivenAt(n, g, r, c) == [unit];
      SatisfiesUnit(m, unit);
      assert LitTrue(m, unit[0]);
      assert ModelTrue(m, Prop(n, r, c, g[r][c]));
    }
  }

  /** Soundness: every model of the clauses decodes into a solution of the
      puzzle that keeps its givens, and that solution is exactly the one the
      model describes. */
  lemma DecodeSound(m: seq<int>, g: seq<seq<int>>, n: nat, sub: nat)
    requires sub >= 1 && n == sub * sub && Puzzle(g, n)
    requires Satisfies(m, SudokuClauses(n, sub, g))
    ensures Solved(DecodeGrid(m, n, g), n, sub) && Extends(g, DecodeGrid(m, n, g), n)
    ensures Represents(m, DecodeGrid(m, n, g), n)
  {
    var d := DecodeGrid(m, n, g);
    ModelReachesCells(m, n, sub, g);
    SudokuClausesIff(m, n, sub, g);
    DecodedCells(m, g, n);
    DecodedRows(m, d, n);
    DecodedCols(m, d, n);
    DecodedBlocks(m, d, n, sub);
    DecodedGivens(m, g, d, n);
  }

  // ---------------- literal bounds ----------------

  lemma CellGroupWithin(n: nat, r: int, c: int)
    requires n >= 1 && 0 <= r < n && 0 <= c < n
    ensures AllWithin(CellGroup(n, r, c), n * n * n)
  {
    AtMostOneWithin(CellLits(n, r, c), n * n * n);
    AllWithinUnit(CellLits(n, r, c), n * n * n);
    AllWithinJoin([CellLits(n, r, c)], AtMostOne(CellLits(n, r, c)), n * n * n);
  }

  lemma CellsWithin(n: nat)
    requires n >= 1
    ensures AllWithin(CellClauses(n), n * n * n)
  {
    var b := n * n * n;
    forall r: nat | r < n ensures AllWithin(CellColsAt(n)(r), b) {
      forall c: nat | c < n ensures AllWithin(CellGroupAt(n, r)(c), b) {
        CellGroupWithin(n, r, c);
      }
      GatherWithin(CellGroupAt(n, r), n, b);
    }
    GatherWithin(CellColsAt(n), n, b);
  }

  lemma RowsWithin(n: nat)
    requires n >= 1
    ensures AllWithin(RowClauses(n), n * n * n)
  {
    var b := n * n * n;
    forall r: nat | r < n ensures AllWithin(RowNumsAt(n)(r), b) {
      forall num: nat | num < n + 1 ensures AllWithin(RowLitAt(n, r)(num), b) {
        AllWithinUnit(RowLits(n, r, num), b);
      }
      GatherWithin(RowLitAt(n, r), n + 1, b);
    }
    GatherWithin(RowNumsAt(n), n, b);
  }

  lemma ColsWithin(n: nat)
    requires n >= 1
    ensures AllWithin(ColClauses(n), n * n * n)
  {
    var b := n * n * n;
    forall c: nat | c < n ensures AllWithin(ColNumsAt(n)(c), b) {
      forall num: nat | num < n + 1 ensures AllWithin(ColLitAt(n, c)(num), b) {
        AllWithinUnit(ColLits(n, c, num), b);
      }
      GatherWithin(ColLitAt(n, c), n + 1, b);
    }
    GatherWithin(ColNumsAt(n), n, b);
  }

  lemma BlockLitsWithin(n: nat, sub: nat, i: int, j: int, num: int)
    requires sub >= 1 && n == sub * sub && 0 <= i < sub && 0 <= j < sub && 1 <= num <= n
    ensures ClauseWithin(BlockLits(n, sub, i * sub, j * sub, num), n * n * n)
  {
    var lits := BlockLits(n, sub, i * sub, j * sub, num);
    forall k | 0 <= k < |lits| ensures lits[k] != 0 && Abs(lits[k]) <= n * n * n {
      Radix.DivBelow(k, sub, sub);
      Radix.Digit(i, k / sub, sub, sub);
      Radix.Digit(j, k % sub, sub, sub);
      assert InRange(n, Entry(i * sub + k / sub, j * sub + k % sub, num));
    }
  }

  lemma BlocksWithin(n: nat, sub: nat)
    requires sub >= 1 && n == sub * sub
    ensures AllWithin(BlockClauses(n, sub), n * n * n)
  {
    var b := n * n * n;
    forall i: nat | i < sub ensures AllWithin(BlockColsAt(n, sub)(i), b) {
      forall j: nat | j < sub ensures AllWithin(BlockNumsAt(n, sub, i * sub)(j), b) {
        forall num: nat | num < n + 1 ensures AllWithin(BlockLitAt(n, sub, i * sub, j * sub)(num), b) {
          if 1 <= num {
            BlockLitsWithin(n, sub, i, j, num);
            AllWithinUnit(BlockLits(n, sub, i * sub, j * sub, num), b);
          }
        }
        GatherWithin(BlockLitAt(n, sub, i * sub, j * sub), n + 1, b);
      }
      GatherWithin(BlockNumsAt(n, sub, i * sub), sub, b);
    }
    GatherWithin(BlockColsAt(n, sub), sub, b);
  }

  lemma GivensWithin(n: nat, g: seq<seq<int>>)
    requires n >= 1 && Puzzle(g, n)
    ensures AllWithin(GivenClauses(n, g), n * n * n)
  {
    var b := n * n * n;
    forall r: nat | r < n ensures AllWithin(GivenColsAt(n, g)(r), b) {
      forall c: nat | c < n ensures AllWithin(GivenCellAt(n, g, r)(c), b) {
        if g[r][c] != 0 {
          AllWithinUnit([Prop(n, r, c, g[r][c])], b);
        }
      }
      GatherWithin(GivenCellAt(n, g, r), n, b);
    }
    GatherWithin(GivenColsAt(n, g), n, b);
  }

  /** Every literal of the formula is a nonzero literal over variables 1..n^3. */
  lemma SudokuClausesWithin(n: nat, sub: nat, g: seq<seq<int>>)
    requires sub >= 1 && n == sub * sub && Puzzle(g, n)
    ensures AllWithin(SudokuClauses(n, sub, g), n * n * n)
  {
    var b := n * n * n;
    CellsWithin(n);
    RowsWithin(n);
    ColsWithin(n);
    BlocksWithin(n, sub);
    GivensWithin(n, g);
    AllWithinJoin(CellClauses(n), RowClauses(n), b);
    AllWithinJoin(CellClauses(n) + RowClauses(n), ColClauses(n), b);
    AllWithinJoin(CellClauses(n) + RowClauses(n) + ColClauses(n), BlockClauses(n, sub), b);
    AllWithinJoin(CellClauses(n) + RowClauses(n) + ColClauses(n) + BlockClauses(n, sub), GivenClauses(n, g), b);
  }
}
