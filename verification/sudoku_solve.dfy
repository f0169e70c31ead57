/** solve_sudoku of Question1/q1.py: encode the grid, ask the solver, and
    write a model back into the grid in place. */
module SudokuSolve {
  import opened Cnf
  import opened Sudoku
  import opened SudokuRules

  /** solve_sudoku: the returned solution is the input grid itself. On a
      model, the grid is overwritten with what the model says, and for a
      puzzle with givens in 0..n that is a solved grid keeping the givens. */
  method SolveSudoku(grid: array2<int>, sub: nat, solve: seq<Clause> -> SatOutcome) returns (solution: array2<int>)
    requires sub >= 1 && grid.Length0 == grid.Length1 == sub * sub
    requires forall f :: solve(f).Sat? ==> Satisfies(solve(f).model, f)
    modifies grid
    ensures solution == grid
    ensures match solve(SudokuClauses(grid.Length0, sub, old(Snapshot(grid))))
            case Unsat => Snapshot(grid) == old(Snapshot(grid))
            case Sat(model) =>
              |model| >= grid.Length0 * grid.Length0 * grid.Length0 &&
              Snapshot(grid) == DecodeGrid(model, grid.Length0, old(Snapshot(grid))) &&
              (Puzzle(old(Snapshot(grid)), grid.Length0) ==>
                 Solved(Snapshot(grid), grid.Length0, sub) && Extends(old(Snapshot(grid)), Snapshot(grid), grid.Length0))
  {
    var n := grid.Length0;
    ghost var g := Snapshot(grid);
    var cnf := EncodeSudoku(grid, sub);
    solution := grid;
    match solve(cnf)
    case Unsat =>
    case Sat(model) =>
      ModelReachesCells(model, n, sub, g);
      WriteModel(solution, model);
      if Puzzle(g, n) {
        DecodeSound(model, g, n, sub);
      }
  }
}
