# SAT encodings of Sokoban and Sudoku, modelled in Dafny

This project models two small SAT encoders for grid puzzles and their
decoders:

- **Sokoban** (`Question2/q2.py`). `SokobanEncoder` parses a grid of `P`
  (player), `B` (box), `G` (goal), `#` (wall) and `.` cells. It numbers the
  facts "goal at a cell", "player at a cell at time t", "action code k at
  time t" and "box b at a cell at time t" as DIMACS variables. Its `encode`
  builds the clause list of a bounded-horizon plan. `decode` reads the action
  block of a model back into direction letters. `solve_sokoban` ties the
  three to a SAT solver.
- **Sudoku** (`Question1/q1.py`). `prop` numbers the facts "cell (r, c)
  holds num". Nested loops append the cell, row, column, block and given
  clauses. The decode loop writes the first true number of each cell back
  into the grid, in place.

The SAT solver is a parameter: a function from clause lists to `Unsat` or
`Sat(model)`. Where a property needs it, the model assumes only that a
reported model satisfies the clauses it was given. A model is a `seq<int>`
of signed literals; variable v is true when entry v - 1 is positive
(`Cnf.ModelTrue`).

Modules:
- `Cnf` (cnf.dfy): clauses, model semantics, the pairwise "at most one"
  pattern and the generic `Gather` of a loop's parts.
- `Radix` (radix.dfy): small arithmetic lemmas.
- `Wrappers` (wrappers.dfy): `Option`.
- `SokobanVars` (sokoban_vars.dfy): the variable numbering.
- `SokobanClauses` (sokoban_clauses.dfy): the clause list of `encode`, as
  functions, one per loop level.
- `SokobanEmit` (sokoban_emit.dfy): the loops of `encode`, as methods proved
  to build those functions.
- `Sokoban` (sokoban.dfy): the encoder class, its grid parse and `encode`.
- `SokobanFamilies` (sokoban_families.dfy): taking a model of the whole
  formula apart into its families, and the literal bounds.
- `SokobanRules` (sokoban_rules.dfy): what a model of the clauses says about
  the game.
- `SokobanDecode` (sokoban_decode.dfy): `decode`, `solve_sokoban`, and the
  plan a model decodes to.
- `Sudoku` (sudoku.dfy): `prop`, the clause loops and the decode loop.
- `SudokuRules` (sudoku_rules.dfy): solved grids, completeness and soundness
  of the encoding.
- `SudokuSolve` (sudoku_solve.dfy): `solve_sudoku`.

Numbering conventions follow the source. Directions are numbered 0 up, 1
right, 2 down, 3 left. Action codes are 1..4 for the moves in that order,
5..8 for the pushes in that order, and 9 for stay. The encoder's `T` is the
caller's horizon plus one, so times run over 0..T-1 (`Dims.t` is that `T`).

Where the intended design of these encoders and the code differ, the model
follows the code:
- Neither decoder reports a cell or step without a true literal as an error.
  The Sudoku decode loop keeps the cell's old value (`Sudoku.FirstTrue`
  returns `None`). The Sokoban decoder writes no letter.
- An unsatisfiable Sudoku returns the input grid unchanged rather than a
  distinct "no solution" value (`SudokuSolve.SolveSudoku`).
- `solve_sokoban` returns -1, not a string, when there is no plan
  (`SokobanDecode.PlanResult.NoPlan`).

## Model

| member | source | states |
|---|---|---|
| SokobanVars.VarGoal | Question2/q2.py:62-65 | the goal variable of an in-grid cell lies in 1..S, with S = N*M cells |
| SokobanVars.VarPlayer | Question2/q2.py:67-76 | the player variable lies in S+1..(T+1)S |
| SokobanVars.VarMove | Question2/q2.py:78-81 | the action variable lies in (T+1)S+1..(T+1)S+9T |
| SokobanVars.VarBox | Question2/q2.py:83-92 | the box variable lies above the action block and at most at the last variable |
| SokobanVars.Layout | Question2/q2.py:293-298 | the four blocks follow one another from 1: goals, players, actions, then boxes up to NumVars |
| SokobanVars.VarOf | Question2/q2.py:62-92 | every valid fact's variable lies in 1..NumVars, and in the block of its own kind only |
| SokobanVars.FactOf | Question2/q2.py:62-92 | every variable in 1..NumVars is the variable of some valid fact (the numbering is onto) |
| SokobanVars.FactOfVarOf | Question2/q2.py:62-92 | decoding a fact's variable gives the fact back |
| SokobanVars.VarOfInjective | Question2/q2.py:62-92 | two valid facts with the same variable are equal |
| SokobanVars.CellAt | Question2/q2.py:65 | the cell of an index below S is on the grid and has that row-major index |
| Sokoban.LastOrConcat | Question2/q2.py:52-53 | keeping the last 'P' over two stretches of cells equals keeping it over their concatenation |
| Sokoban.SokobanEncoder.constructor | Question2/q2.py:24-45 | the fields hold the parse of the grid and T is the horizon plus one |
| Sokoban.SokobanEncoder.ParseGrid | Question2/q2.py:47-59 | goals, boxes and walls gain the cells of their character in row-major order; the start becomes the last 'P' |
| Sokoban.SokobanEncoder.ParseRow | Question2/q2.py:51-59 | one row of the parse: the same, over the columns of row x |
| Sokoban.SokobanEncoder.Encode | Question2/q2.py:95-230 | the fields form a valid instance and the returned list is exactly the clause list of that instance |
| Sokoban.MarkedIff | Question2/q2.py:50-59 | a cell is in a parsed list exactly when it is on the grid and holds that list's character |
| Sokoban.MarkedOrder | Question2/q2.py:50-59 | a parsed list is strictly increasing in row-major order |
| Sokoban.ParsedCells | Question2/q2.py:47-59 | after the parse, boxes, goals and walls are exactly the cells holding 'B', 'G' and '#', each in row-major order |
| Sokoban.ParsedStart | Question2/q2.py:52-53 | there is no start exactly when no cell holds 'P'; otherwise the start holds 'P' and every other 'P' comes before it |
| Sokoban.ParsedValid | Question2/q2.py:107-124 | a parsed encoder with a start and T >= 1 names only in-grid boxes and walls |
| SokobanEmit.EmitBoxInits | Question2/q2.py:109-110 | appends one unit clause per box, for box b at its start at time 0 |
| SokobanEmit.EmitGoalRow | Question2/q2.py:113-117 | appends the goal unit clause of each cell of row x |
| SokobanEmit.EmitGoals | Question2/q2.py:112-117 | appends the goal unit clauses of every row |
| SokobanEmit.EmitWallStep | Question2/q2.py:121-124 | appends, for one wall and time, the clause against the player and one against each box there |
| SokobanEmit.EmitWallTimes | Question2/q2.py:120-124 | the same for every time of one wall |
| SokobanEmit.EmitWalls | Question2/q2.py:119-124 | the same for every wall |
| SokobanEmit.Advance | Question2/q2.py:135-140 | the stepped coordinates are the neighbour in the given direction |
| SokobanEmit.EmitMoveStep | Question2/q2.py:133-145 | appends the box frame clauses and the move clause of one cell, direction and time |
| SokobanEmit.EmitMoveDir | Question2/q2.py:132-145 | the same over the times 1..T-1 |
| SokobanEmit.EmitMoveCell | Question2/q2.py:131-145 | the same over the four directions |
| SokobanEmit.EmitMoveRow | Question2/q2.py:130-145 | the same over the columns of a row |
| SokobanEmit.EmitMoves | Question2/q2.py:129-145 | the same over every row |
| SokobanEmit.EmitPushKeepRow | Question2/q2.py:174-176 | appends the keep clauses of one box for the cells of one row other than the cell ahead |
| SokobanEmit.EmitPushKeep | Question2/q2.py:173-176 | the same over every row |
| SokobanEmit.EmitPushBox | Question2/q2.py:171-176 | appends the player, moved-box and keep clauses of one box |
| SokobanEmit.EmitPushBoxes | Question2/q2.py:168-176 | appends those for every box and builds the "some box ahead" clause |
| SokobanEmit.EmitPushStep | Question2/q2.py:152-177 | appends the push clauses of one cell, time and direction, off-grid or not |
| SokobanEmit.EmitPushDirs | Question2/q2.py:151-177 | the same over the four directions |
| SokobanEmit.EmitPushCell | Question2/q2.py:150-177 | the same over the times 1..T-1 |
| SokobanEmit.EmitPushRow | Question2/q2.py:149-177 | the same over the columns of a row |
| SokobanEmit.EmitPushes | Question2/q2.py:148-177 | the same over every row |
| SokobanEmit.EmitOverlapStep | Question2/q2.py:184-186 | appends the player-box and box-box exclusion clauses of one cell, box and time |
| SokobanEmit.EmitOverlapBox | Question2/q2.py:183-186 | the same over every time |
| SokobanEmit.EmitOverlapCell | Question2/q2.py:182-186 | the same over every box |
| SokobanEmit.EmitOverlapRow | Question2/q2.py:181-186 | the same over the columns of a row |
| SokobanEmit.EmitOverlaps | Question2/q2.py:180-186 | the same over every row |
| SokobanEmit.EmitFinalCell | Question2/q2.py:191-192 | appends "box b here at the last time implies goal here" for every box |
| SokobanEmit.EmitFinalRow | Question2/q2.py:190-192 | the same over the columns of a row |
| SokobanEmit.EmitFinals | Question2/q2.py:189-192 | the same over every row |
| SokobanEmit.EmitActionStep | Question2/q2.py:199-204 | appends the pairwise exclusions of the nine actions of one time, then their disjunction |
| SokobanEmit.EmitActions | Question2/q2.py:198-204 | the same over every time |
| SokobanEmit.EmitExactlyOne | Question2/q2.py:208-213 | appends a list of literals as one clause, then its pairwise exclusions |
| SokobanEmit.EmitUniqueStep | Question2/q2.py:208-221 | appends the exactly-one clauses of the player and then of each box at one time |
| SokobanEmit.EmitUniques | Question2/q2.py:207-221 | the same over every time |
| SokobanEmit.EmitStayCell | Question2/q2.py:226-228 | appends the stay clauses of every box, then of the player, at one cell and time |
| SokobanEmit.EmitStayRow | Question2/q2.py:225-228 | the same over the columns of a row |
| SokobanEmit.EmitStayStep | Question2/q2.py:224-228 | the same over every row |
| SokobanEmit.EmitStays | Question2/q2.py:223-228 | the same over the times 1..T-1 |
| Cnf.AppendPairsFrom | Question2/q2.py:202-203 | appends the exclusion clause of literal i with every later literal |
| Cnf.AppendAtMostOne | Question1/q1.py:38-40 | appends the exclusion clause of every pair i < j of the literals |
| Cnf.AppendPairsThenClause | Question2/q2.py:199-204 | appends the pairwise exclusions of the literals, then their disjunction |
| Cnf.AtMostOneHas | Question1/q1.py:38-40 | for every i < j, the exclusion clause of literals i and j is in the list |
| Cnf.AtMostOneOnly | Question1/q1.py:38-40 | every clause of the list is the exclusion clause of some pair i < j |
| Cnf.AtMostOneSound | Question1/q1.py:38-40 | a model of the exclusions makes at most one of the literals true |
| Cnf.AtMostOneComplete | Question1/q1.py:38-40 | a model making at most one of the literals true satisfies the exclusions |
| SokobanFamilies.ClausesSat | Question2/q2.py:103-230 | a model of the whole list is a model of each of its eleven families |
| SokobanFamilies.ClausesWithin | Question2/q2.py:103-230 | every literal of every clause is nonzero with absolute value at most NumVars |
| SokobanRules.InitFacts | Question2/q2.py:107-110 | a model of the initial clauses puts the player and every box at their starts at time 0 |
| SokobanRules.StartRule | Question2/q2.py:107-126 | a model of the clauses puts the player and boxes at their starts at time 0 and makes time 0 a stay |
| SokobanRules.GoalRule | Question2/q2.py:112-117 | in a model, the goal variable of a cell is true exactly when the cell is a goal |
| SokobanRules.WallRule | Question2/q2.py:119-124 | in a model, neither the player nor any box is ever on a wall |
| SokobanRules.MoveRule | Question2/q2.py:135-145 | a move off the grid is never taken; a move on the grid puts the player on the neighbour cell |
| SokobanRules.MoveKeepsBox | Question2/q2.py:133-134 | under a move, every box keeps its cell |
| SokobanRules.AheadFacts | Question2/q2.py:168-177 | under the "some box ahead" clause, a push needs some box in the cell ahead |
| SokobanRules.PushRule | Question2/q2.py:164-177 | a push whose ahead or beyond cell is off the grid is never taken; otherwise a box is ahead at t-1 |
| SokobanRules.PushMovesBox | Question2/q2.py:171-172 | the pushed box moves to the beyond cell and the player to the ahead cell |
| SokobanRules.PushKeepsBox | Question2/q2.py:173-176 | under a push, a box in any cell other than the ahead cell keeps it |
| SokobanRules.OverlapRule | Question2/q2.py:180-186 | the player and a box never share a cell, nor do box b and any later box |
| SokobanRules.BoxesApart | Question2/q2.py:185-186 | no two distinct boxes share a cell |
| SokobanRules.FinalRule | Question2/q2.py:189-192 | at the last time every box is on a goal cell |
| SokobanRules.ActionRule | Question2/q2.py:198-204 | at each time exactly one of the nine actions is true |
| SokobanRules.ActionReach | Question2/q2.py:198-204 | a model of the action clauses of a time is long enough to hold that time's stay variable |
| SokobanRules.ModelReachesActions | Question2/q2.py:249-250 | every model of the clauses holds every action variable, so the index read by decode never runs past the model |
| SokobanRules.ExactlyOneTrue | Question2/q2.py:208-213 | a model of an exactly-one family makes exactly one of its literals true |
| SokobanRules.PlayerUnique | Question2/q2.py:207-213 | at each time the player is in exactly one cell |
| SokobanRules.BoxUnique | Question2/q2.py:215-221 | at each time each box is in exactly one cell |
| SokobanRules.StayKeepsPlayer | Question2/q2.py:223-228 | under a stay, the player keeps its cell, whether or not the grid has boxes |
| SokobanRules.StayKeepsBox | Question2/q2.py:223-227 | under a stay, every box keeps its cell |
| SokobanDecode.ActionLetter | Question2/q2.py:250-260 | a code writes at most one letter, and writes one exactly for the codes 1..8 |
| SokobanDecode.LetterDirection | Question2/q2.py:21 | the move and the push in a direction write the same letter, and that letter's offset in the direction table is the step the clauses use |
| SokobanDecode.LettersDistinct | Question2/q2.py:252-255 | distinct directions write distinct letters |
| SokobanDecode.ReadEntry | Question2/q2.py:250-260 | one round of the decode loop appends the letter of the entry's code when the entry is positive, and nothing otherwise |
| SokobanDecode.ScanActions | Question2/q2.py:248-262 | the scan over 9t entries from the base yields the letters of the positive entries in index order |
| SokobanDecode.Decode | Question2/q2.py:234-262 | decode starts at the first action variable and yields those letters for all T time steps |
| SokobanDecode.LetterIsAction | Question2/q2.py:249-251 | the entry the loop reads at offset 9t + k - 1 is the variable of action k at time t |
| SokobanDecode.DecodeByTime | Question2/q2.py:249-262 | the letters read by index are the letters of each time step, one step after another |
| SokobanDecode.PlanOf | Question2/q2.py:250-260 | a plan of action codes has at most one letter per step |
| SokobanDecode.PlanAfterStay | Question2/q2.py:126 | a plan whose first step is a stay has at most one letter per later step |
| SokobanDecode.PlanOfStays | Question2/q2.py:260 | a plan of stays only has no letters |
| SokobanDecode.StepsFollow | Question2/q2.py:249-262 | when each step has one true action, the decoded letters are the plan of those actions |
| SokobanDecode.DecodedPlan | Question2/q2.py:234-262 | a model of the clauses has one action per step, a stay at time 0, decodes to the plan of those actions, and yields at most T-1 letters (the caller's horizon) |
| SokobanDecode.StartOnGrid | Question2/q2.py:50-53 | a grid with a 'P' gives a start on the grid |
| SokobanDecode.GridInstance | Question2/q2.py:278 | the instance encoded for a grid with a 'P' is valid and has horizon + 1 time steps |
| SokobanDecode.SolveSokoban | Question2/q2.py:265-290 | the result is no plan exactly when the solver says unsat or gives an empty model; any model the solver gives reaches the last action variable, so decode never fails on its index; otherwise the result is the decoded letters of the model, at most horizon of them |
| Sudoku.Prop | Question1/q1.py:17-18 | an in-range (row, column, number) has a variable in 1..n^3 |
| Sudoku.Unprop | Question1/q1.py:17-18 | every variable in 1..n^3 is prop of some in-range entry (prop is onto) |
| Sudoku.UnpropProp | Question1/q1.py:17-18 | decoding prop of an entry gives the entry back |
| Sudoku.PropInjective | Question1/q1.py:17-18 | two in-range entries with the same variable are equal |
| Sudoku.EmitCellRow | Question1/q1.py:34-40 | appends, for every cell of a row, its clause of n literals and their pairwise exclusions |
| Sudoku.EmitCells | Question1/q1.py:33-40 | the same over every row |
| Sudoku.EmitRowNums | Question1/q1.py:44-46 | appends, for each number, the clause "it is somewhere in row r" |
| Sudoku.EmitRows | Question1/q1.py:43-46 | the same over every row |
| Sudoku.EmitColNums | Question1/q1.py:50-52 | appends, for each number, the clause "it is somewhere in column c" |
| Sudoku.EmitCols | Question1/q1.py:49-52 | the same over every column |
| Sudoku.EmitBlock | Question1/q1.py:57-61 | appends, for each number, the clause "it is somewhere in this block" |
| Sudoku.EmitBlockRow | Question1/q1.py:56-61 | the same over the blocks of a band |
| Sudoku.EmitBlocks | Question1/q1.py:55-61 | the same over every band |
| Sudoku.EmitGivenRow | Question1/q1.py:65-67 | appends one unit clause per nonzero cell of a row and none for a blank |
| Sudoku.EmitGivens | Question1/q1.py:64-67 | the same over every row |
| Sudoku.EncodeSudoku | Question1/q1.py:20-67 | the clause list is the cell, row, column, block and given families of the grid, in that order |
| Sudoku.FirstTrue | Question1/q1.py:77-80 | the number found is the smallest from num on whose variable is true, or none is true |
| Sudoku.WriteModel | Question1/q1.py:75-80 | every cell now holds the first true number of the model, or its old value when none is true |
| SudokuRules.SolutionModelRepresents | Question1/q1.py:17-18 | the model built from a filled grid makes prop(r, c, v) true exactly when the grid has v at (r, c) |
| SudokuRules.SudokuClausesIff | Question1/q1.py:33-67 | a model satisfies the formula exactly when it satisfies each of the five families |
| SudokuRules.CellsTrue | Question1/q1.py:33-40 | a filled grid's model satisfies the cell clauses |
| SudokuRules.RowsTrue | Question1/q1.py:43-46 | a model of a grid whose rows hold every number satisfies the row clauses |
| SudokuRules.ColsTrue | Question1/q1.py:49-52 | the same for columns |
| SudokuRules.BlocksTrue | Question1/q1.py:55-61 | the same for blocks |
| SudokuRules.GivensTrue | Question1/q1.py:64-67 | a model of a grid that keeps the givens satisfies the given clauses |
| SudokuRules.SolutionSatisfies | Question1/q1.py:33-67 | round trip: the model of any solution that keeps the givens satisfies every generated clause |
| SudokuRules.DecodedCellTrue | Question1/q1.py:75-80 | under the cell clauses, the decoded number is in 1..n and is the only true number of the cell |
| SudokuRules.DecodedCells | Question1/q1.py:70-82 | a model of the cell clauses decodes to a filled grid that it describes exactly |
| SudokuRules.DecodedRows | Question1/q1.py:43-46 | the decoded grid has every number in every row |
| SudokuRules.DecodedCols | Question1/q1.py:49-52 | the decoded grid has every number in every column |
| SudokuRules.DecodedBlocks | Question1/q1.py:55-61 | the decoded grid has every number in every block |
| SudokuRules.DecodedGivens | Question1/q1.py:64-67 | the decoded grid keeps every given number |
| SudokuRules.LastCellReach | Question1/q1.py:35-40 | a model of the last cell's clauses holds variable n^3, the largest prop |
| SudokuRules.ModelReachesCells | Question1/q1.py:75-78 | every model of the formula holds all n^3 variables, so the decode loop's index stays inside the model |
| SudokuRules.DecodeSound | Question1/q1.py:69-82 | every model of the formula decodes to a solved grid that keeps the givens |
| SudokuSolve.SolveSudoku | Question1/q1.py:69-82 | the returned grid is the input grid; unsat leaves it unchanged; a model reported by a sound solver is at least n^3 long and is written into the grid, and for givens in 0..n the grid is then solved and keeps the givens |
| SudokuRules.SudokuClausesWithin | Question1/q1.py:17-67 | every literal of every clause is nonzero with absolute value at most n^3 |

## Left out

- The SAT solver (PySAT's `Solver`, `CNF`, `append_formula`, `bootstrap_with`, `solve`, `get_model`) is external code. It is a function parameter `solve` of `SolveSokoban` and `SolveSudoku`. Only soundness is assumed of it, as a `requires`: a model it reports satisfies the clauses.
- The unused `self.cnf` field of the encoder, the commented-out prints and the commented-out `'S'` case of `decode` are not modelled.
- `sub_n = int(n**0.5)` is a floating-point square root. `sub` is an integer parameter with `sub * sub == n`.
- SolveSudoku: takes the grid as a square `array2` of n rows of n distinct cells with n >= 1, where the source takes a list of lists and reads only `n = len(grid)`. Three inputs the source accepts are not modelled. Rows longer than n have extra columns that the source neither encodes nor writes. Rows that are one shared list object, such as `[[0]*4]*4`, show every in-place write in each row that shares it; an `array2` has no such aliasing. With n == 0, `range(0, 0, 0)` raises `ValueError`.
- The `assert`s of `var_goal`, `var_player`, `var_move` and `var_box` are `requires` clauses, so an out-of-range call is a verification error rather than a runtime failure.
- Python integers are unbounded, as are Dafny's; no width is modelled.
- SolveSokoban: the source would raise `IndexError` in `decode` on a model shorter than the last action variable. Under the solver's soundness this cannot happen (`SokobanRules.ModelReachesActions`), so the model has no result for it.
- Decode: requires a model that reaches the last action variable, the case in which the source's list index does not fail; `SolveSokoban` establishes this from `SokobanRules.ModelReachesActions` before calling it.
- SolveSokoban: requires a 'P' on the grid, a rectangular grid with at least one row, and a horizon of at least 0. Without a 'P', `encode` fails on `None`. With a horizon below 0, the `var_move(9, 0)` assertion fails. A ragged grid makes `_parse_grid` index outside a shorter row or skip cells of a longer one.
- SolveSokoban: does not state that the decoded letters, replayed on the grid, form a legal plan that ends with every box on a goal. The per-step facts are proved separately in `SokobanRules` (start, walls, moves, pushes, stays, overlap, goals) and `DecodedPlan`, but no game simulation ties them into one replay.
- Completeness of the Sokoban encoding is not proved: a legal plan of at most T moves does not yet give a model of the clauses. Horizon monotonicity is not proved either: a horizon that admits a plan does not yet give a model for every larger horizon.
- Membership facts for the Sokoban clause families, such as "this unit clause is in the list", are stated through their meaning instead: a model of the list satisfies that clause (the `...Rule` lemmas). The number of clauses in each family is not stated.
- SolveSudoku: states that the written grid is solved and keeps the givens only when every given lies in 0..n. A given outside that range adds a unit clause that is not about that cell's own numbers (a given n + 1 names number 1 of the next cell), and nothing is stated about such a grid beyond `DecodeGrid`.
- That a Sudoku whose givens repeat a number in one row, column or block has no model is not stated. The formula has no "at most once per row" clauses, so this follows from `SudokuRules.DecodeSound` only through a counting argument that is not formalised here.
- The count of the `n(n-1)/2` exclusion clauses per cell is not stated. Their contents are (`Cnf.AtMostOneHas`, `Cnf.AtMostOneOnly`).
- The `decode` loop is one method, `ScanActions`, whose `match` on the code is split into the method `ReadEntry`.
