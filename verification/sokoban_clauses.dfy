/** The clause list that `SokobanEncoder.encode` (Question2/q2.py) builds,
    one function per loop level: F(.., k) is the list that loop has produced
    after its first k rounds. Most levels are a Gather (module Cnf) of the
    part one round appends; a level whose counter starts at 1 has an empty
    part 0, so that part s is the round with counter s. */
module SokobanClauses {
  import opened Cnf
  import opened SokobanVars

  /** What the encoder reads from the parsed grid. */
  datatype Instance = Instance(d: Dims, start: Cell, boxes: seq<Cell>, goals: seq<Cell>, walls: seq<Cell>)

  /** What `encode` needs of its instance for every variable it asks for to
      exist: at least one time step, a player start, and one start cell per
      box, all inside the grid. Goals are only tested for membership. */
  predicate Valid(I: Instance)
  {
    I.d.t >= 1 && |I.boxes| == I.d.b && InGrid(I.d, I.start) &&
    (forall k :: 0 <= k < |I.boxes| ==> InGrid(I.d, I.boxes[k])) &&
    (forall k :: 0 <= k < |I.walls| ==> InGrid(I.d, I.walls[k]))
  }

  /** The neighbour of c in direction mv: 0 up (x - 1), 1 right (y + 1),
      2 down (x + 1), 3 left (y - 1). */
  function Neighbour(c: Cell, mv: int): Cell
  {
    if mv == 0 then Cell(c.x - 1, c.y)
    else if mv == 1 then Cell(c.x, c.y + 1)
    else if mv == 2 then Cell(c.x + 1, c.y)
    else Cell(c.x, c.y - 1)
  }

  /** The four directions of the move and push loops: up, right, down, left. */
  const Directions: nat := 4

  // ---------------- 1. initial state ----------------

  function BoxInits(d: Dims, boxes: seq<Cell>, k: nat): seq<Clause>
    requires d.t >= 1 && |boxes| == d.b && k <= d.b
    requires forall i :: 0 <= i < |boxes| ==> InGrid(d, boxes[i])
  {
    if k == 0 then [] else BoxInits(d, boxes, k - 1) + [[VarBox(d, k, boxes[k - 1].x, boxes[k - 1].y, 0)]]
  }

  /** The player and every box at their start cells at time 0. */
  function InitClauses(I: Instance): seq<Clause>
    requires Valid(I)
  {
    [[VarPlayer(I.d, I.start.x, I.start.y, 0)]] + BoxInits(I.d, I.boxes, I.d.b)
  }

  /** The goal flag of a cell: true exactly for the listed goal cells. */
  function GoalUnit(d: Dims, goals: seq<Cell>, x: int, y: int): Clause
    requires InGrid(d, Cell(x, y))
  {
    if Cell(x, y) in goals then [VarGoal(d, x, y)] else [-VarGoal(d, x, y)]
  }

  function GoalCols(d: Dims, goals: seq<Cell>, x: int, y: nat): seq<Clause>
    requires 0 <= x < d.n && y <= d.m
  {
    if y == 0 then [] else GoalCols(d, goals, x, y - 1) + [GoalUnit(d, goals, x, y - 1)]
  }

  /** The goal flags of row i, for each row i. */
  function GoalColsAt(d: Dims, goals: seq<Cell>): nat -> seq<Clause>
  {
    (i: nat) => if i < d.n then GoalCols(d, goals, i, d.m) else []
  }

  function GoalRows(d: Dims, goals: seq<Cell>, x: nat): seq<Clause>
  {
    Gather(GoalColsAt(d, goals), x)
  }

  // ---------------- 2. walls ----------------

  function WallBoxes(d: Dims, w: Cell, t: int, k: nat): seq<Clause>
    requires InGrid(d, w) && 0 <= t < d.t && k <= d.b
  {
    if k == 0 then [] else WallBoxes(d, w, t, k - 1) + [[-VarBox(d, k, w.x, w.y, t)]]
  }

  /** Neither the player nor any box on wall w at time t. */
  function WallStep(d: Dims, w: Cell, t: int): seq<Clause>
    requires InGrid(d, w) && 0 <= t < d.t
  {
    [[-VarPlayer(d, w.x, w.y, t)]] + WallBoxes(d, w, t, d.b)
  }

  /** The wall clauses of w at time s, for each time s. */
  function WallStepAt(d: Dims, w: Cell): nat -> seq<Clause>
  {
    (s: nat) => if InGrid(d, w) && s < d.t then WallStep(d, w, s) else []
  }

  function WallTimes(d: Dims, w: Cell, t: nat): seq<Clause>
  {
    Gather(WallStepAt(d, w), t)
  }

  /** The clauses of the i-th wall, for each listed wall. */
  function WallTimesAt(d: Dims, walls: seq<Cell>): nat -> seq<Clause>
  {
    (i: nat) => if i < |walls| && InGrid(d, walls[i]) then WallTimes(d, walls[i], d.t) else []
  }

  function WallList(d: Dims, walls: seq<Cell>, k: nat): seq<Clause>
  {
    Gather(WallTimesAt(d, walls), k)
  }

  // ---------------- 3. plain moves (actions 1..4) ----------------

  /** A plain move leaves box k where it was. */
  function MoveFrame(d: Dims, x: int, y: int, mv: int, t: int, k: nat): seq<Clause>
    requires InGrid(d, Cell(x, y)) && 0 <= mv < 4 && 1 <= t < d.t && k <= d.b
  {
    if k == 0 then [] else
      MoveFrame(d, x, y, mv, t, k - 1) + [[-VarMove(d, mv + 1, t), -VarBox(d, k, x, y, t - 1), VarBox(d, k, x, y, t)]]
  }

  /** A plain move from (x, y) takes the player to the neighbour, or is
      impossible when the neighbour is off the grid. */
  function MoveTarget(d: Dims, x: int, y: int, mv: int, t: int): Clause
    requires InGrid(d, Cell(x, y)) && 0 <= mv < 4 && 1 <= t < d.t
  {
    var a := Neighbour(Cell(x, y), mv);
    if !InGrid(d, a) then [-VarMove(d, mv + 1, t), -VarPlayer(d, x, y, t - 1)]
    else [-VarMove(d, mv + 1, t), -VarPlayer(d, x, y, t - 1), VarPlayer(d, a.x, a.y, t)]
  }

  function MoveStep(d: Dims, x: int, y: int, mv: int, t: int): seq<Clause>
    requires InGrid(d, Cell(x, y)) && 0 <= mv < 4 && 1 <= t < d.t
  {
    MoveFrame(d, x, y, mv, t, d.b) + [MoveTarget(d, x, y, mv, t)]
  }

  /** Move mv from (x, y) at time s, for each time s >= 1 (time 0 contributes nothing). */
  function MoveStepAt(d: Dims, x: int, y: int, mv: int): nat -> seq<Clause>
  {
    (s: nat) => if InGrid(d, Cell(x, y)) && 0 <= mv < 4 && 1 <= s < d.t then MoveStep(d, x, y, mv, s) else []
  }

  function MoveTimes(d: Dims, x: int, y: int, mv: int, t: nat): seq<Clause>
  {
    Gather(MoveStepAt(d, x, y, mv), t)
  }

  /** The clauses of move mv from (x, y), for each direction mv. */
  function MoveTimesAt(d: Dims, x: int, y: int): nat -> seq<Clause>
  {
    (mv: nat) => if mv < Directions then MoveTimes(d, x, y, mv, d.t) else []
  }

  function MoveDirs(d: Dims, x: int, y: int, k: nat): seq<Clause>
  {
    Gather(MoveTimesAt(d, x, y), k)
  }

  /** The move clauses of cell (x, j), for each column j. */
  function MoveDirsAt(d: Dims, x: int): nat -> seq<Clause>
  {
    (j: nat) => MoveDirs(d, x, j, Directions)
  }

  function MoveCols(d: Dims, x: int, y: nat): seq<Clause>
  {
    Gather(MoveDirsAt(d, x), y)
  }

  /** The move clauses of row i, for each row i. */
  function MoveColsAt(d: Dims): nat -> seq<Clause>
  {
    (i: nat) => MoveCols(d, i, d.m)
  }

  function MoveRows(d: Dims, x: nat): seq<Clause>
  {
    Gather(MoveColsAt(d), x)
  }

  // ---------------- 4. pushes (actions 5..8) ----------------

  /** Box b at (px, py), a cell other than the one pushed into, stays put. */
  function PushKeep(d: Dims, x: int, y: int, t: int, mv: int, b: int, px: int, py: int): seq<Clause>
    requires InGrid(d, Cell(x, y)) && 1 <= t < d.t && 0 <= mv < 4 && 1 <= b <= d.b
    requires InGrid(d, Cell(px, py))
  {
    if Cell(px, py) != Neighbour(Cell(x, y), mv) then
      [[-VarMove(d, mv + 5, t), -VarPlayer(d, x, y, t - 1), -VarBox(d, b, px, py, t - 1), VarBox(d, b, px, py, t)]]
    else []
  }

  /** Box b's keep clause at (px, j), for each column j. */
  function PushKeepAt(d: Dims, x: int, y: int, t: int, mv: int, b: int, px: int): nat -> seq<Clause>
  {
    (j: nat) => if InGrid(d, Cell(x, y)) && 1 <= t < d.t && 0 <= mv < 4 && 1 <= b <= d.b && InGrid(d, Cell(px, j)) then PushKeep(d, x, y, t, mv, b, px, j) else []
  }

  function PushKeepCols(d: Dims, x: int, y: int, t: int, mv: int, b: int, px: int, py: nat): seq<Clause>
  {
    Gather(PushKeepAt(d, x, y, t, mv, b, px), py)
  }

  /** Box b's keep clauses in row i, for each row i. */
  function PushKeepColsAt(d: Dims, x: int, y: int, t: int, mv: int, b: int): nat -> seq<Clause>
  {
    (i: nat) => PushKeepCols(d, x, y, t, mv, b, i, d.m)
  }

  function PushKeepRows(d: Dims, x: int, y: int, t: int, mv: int, b: int, px: nat): seq<Clause>
  {
    Gather(PushKeepColsAt(d, x, y, t, mv, b), px)
  }

  /** A push with box b in the cell ahead moves the player there and the box
      one further; every other cell keeps box b. */
  function PushBox(d: Dims, x: int, y: int, t: int, mv: int, b: int): seq<Clause>
    requires InGrid(d, Cell(x, y)) && 1 <= t < d.t && 0 <= mv < 4 && 1 <= b <= d.b
    requires InGrid(d, Neighbour(Cell(x, y), mv)) && InGrid(d, Neighbour(Neighbour(Cell(x, y), mv), mv))
  {
    var a := Neighbour(Cell(x, y), mv);
    var z := Neighbour(a, mv);
    [[-VarMove(d, mv + 5, t), -VarPlayer(d, x, y, t - 1), -VarBox(d, b, a.x, a.y, t - 1), VarPlayer(d, a.x, a.y, t)],
     [-VarMove(d, mv + 5, t), -VarPlayer(d, x, y, t - 1), -VarBox(d, b, a.x, a.y, t - 1), VarBox(d, b, z.x, z.y, t)]] +
    PushKeepRows(d, x, y, t, mv, b, d.n)
  }

  /** The clauses of box j + 1 (boxes are numbered from 1), for each j. */
  function PushBoxAt(d: Dims, x: int, y: int, t: int, mv: int): nat -> seq<Clause>
  {
    (j: nat) => if InGrid(d, Cell(x, y)) && 1 <= t < d.t && 0 <= mv < 4 && j < d.b && InGrid(d, Neighbour(Cell(x, y), mv)) && InGrid(d, Neighbour(Neighbour(Cell(x, y), mv), mv)) then PushBox(d, x, y, t, mv, j + 1) else []
  }

  function PushBoxes(d: Dims, x: int, y: int, t: int, mv: int, k: nat): seq<Clause>
  {
    Gather(PushBoxAt(d, x, y, t, mv), k)
  }

  /** The literals "box k' is ahead at t - 1" for k' = 1..k. */
  function AheadLits(d: Dims, x: int, y: int, t: int, mv: int, k: nat): (lits: seq<int>)
    requires 1 <= t < d.t && 0 <= mv < 4 && k <= d.b
    requires InGrid(d, Neighbour(Cell(x, y), mv))
    ensures |lits| == k
  {
    var a := Neighbour(Cell(x, y), mv);
    if k == 0 then [] else AheadLits(d, x, y, t, mv, k - 1) + [VarBox(d, k, a.x, a.y, t - 1)]
  }

  /** A push needs some box ahead: [-push, -player, box 1 ahead, ..., box b ahead]. */
  function AheadClause(d: Dims, x: int, y: int, t: int, mv: int): Clause
    requires InGrid(d, Cell(x, y)) && 1 <= t < d.t && 0 <= mv < 4
    requires InGrid(d, Neighbour(Cell(x, y), mv))
  {
    [-VarMove(d, mv + 5, t), -VarPlayer(d, x, y, t - 1)] + AheadLits(d, x, y, t, mv, d.b)
  }

  /** All clauses of push mv from (x, y) at time t; a push whose cell ahead or
      beyond is off the grid is impossible. */
  function PushStep(d: Dims, x: int, y: int, t: int, mv: int): seq<Clause>
    requires InGrid(d, Cell(x, y)) && 1 <= t < d.t && 0 <= mv < 4
  {
    var a := Neighbour(Cell(x, y), mv);
    if !InGrid(d, a) || !InGrid(d, Neighbour(a, mv)) then
      [[-VarMove(d, mv + 5, t), -VarPlayer(d, x, y, t - 1)]]
    else
      PushBoxes(d, x, y, t, mv, d.b) + [AheadClause(d, x, y, t, mv)]
  }

  /** The clauses of push mv, for each direction mv. */
  function PushStepAt(d: Dims, x: int, y: int, t: int): nat -> seq<Clause>
  {
    (mv: nat) => if InGrid(d, Cell(x, y)) && 1 <= t < d.t && mv < Directions then PushStep(d, x, y, t, mv) else []
  }

  function PushDirs(d: Dims, x: int, y: int, t: int, k: nat): seq<Clause>
  {
    Gather(PushStepAt(d, x, y, t), k)
  }

  /** The pushes from (x, y) at time s, for each time s >= 1 (time 0 contributes nothing). */
  function PushDirsAt(d: Dims, x: int, y: int): nat -> seq<Clause>
  {
    (s: nat) => if 1 <= s then PushDirs(d, x, y, s, Directions) else []
  }

  function PushTimes(d: Dims, x: int, y: int, t: nat): seq<Clause>
  {
    Gather(PushDirsAt(d, x, y), t)
  }

  /** The push clauses of cell (x, j), for each column j. */
  function PushTimesAt(d: Dims, x: int): nat -> seq<Clause>
  {
    (j: nat) => PushTimes(d, x, j, d.t)
  }

  function PushCols(d: Dims, x: int, y: nat): seq<Clause>
  {
    Gather(PushTimesAt(d, x), y)
  }

  /** The push clauses of row i, for each row i. */
  function PushColsAt(d: Dims): nat -> seq<Clause>
  {
    (i: nat) => PushCols(d, i, d.m)
  }

  function PushRows(d: Dims, x: nat): seq<Clause>
  {
    Gather(PushColsAt(d), x)
  }

  // ---------------- 5. non-overlap ----------------

  /** Boxes b + 1 .. k - 1 are not in box b's cell (x, y) at t. */
  function OverlapPairs(d: Dims, x: int, y: int, b: int, t: int, k: nat): seq<Clause>
    requires InGrid(d, Cell(x, y)) && 1 <= b <= d.b && 0 <= t < d.t && k <= d.b
  {
    if k <= b then [] else OverlapPairs(d, x, y, b, t, k - 1) + [[-VarBox(d, b, x, y, t), -VarBox(d, k, x, y, t)]]
  }

  function OverlapStep(d: Dims, x: int, y: int, b: int, t: int): seq<Clause>
    requires InGrid(d, Cell(x, y)) && 1 <= b <= d.b && 0 <= t < d.t
  {
    [[-VarPlayer(d, x, y, t), -VarBox(d, b, x, y, t)]] + OverlapPairs(d, x, y, b, t, d.b)
  }

  /** Box b's non-overlap clauses at (x, y) at time s, for each time s. */
  function OverlapStepAt(d: Dims, x: int, y: int, b: int): nat -> seq<Clause>
  {
    (s: nat) => if InGrid(d, Cell(x, y)) && 1 <= b <= d.b && s < d.t then OverlapStep(d, x, y, b, s) else []
  }

  function OverlapTimes(d: Dims, x: int, y: int, b: int, t: nat): seq<Clause>
  {
    Gather(OverlapStepAt(d, x, y, b), t)
  }

  /** The non-overlap clauses of box j + 1 at (x, y), for each j. */
  function OverlapTimesAt(d: Dims, x: int, y: int): nat -> seq<Clause>
  {
    (j: nat) => OverlapTimes(d, x, y, j + 1, d.t)
  }

  function OverlapBoxes(d: Dims, x: int, y: int, k: nat): seq<Clause>
  {
    Gather(OverlapTimesAt(d, x, y), k)
  }

  /** The non-overlap clauses of cell (x, j), for each column j. */
  function OverlapBoxesAt(d: Dims, x: int): nat -> seq<Clause>
  {
    (j: nat) => OverlapBoxes(d, x, j, d.b)
  }

  function OverlapCols(d: Dims, x: int, y: nat): seq<Clause>
  {
    Gather(OverlapBoxesAt(d, x), y)
  }

  /** The non-overlap clauses of row i, for each row i. */
  function OverlapColsAt(d: Dims): nat -> seq<Clause>
  {
    (i: nat) => OverlapCols(d, i, d.m)
  }

  function OverlapRows(d: Dims, x: nat): seq<Clause>
  {
    Gather(OverlapColsAt(d), x)
  }

  // ---------------- 6. goal at the last step ----------------

  function FinalBoxes(d: Dims, x: int, y: int, k: nat): seq<Clause>
    requires InGrid(d, Cell(x, y)) && k <= d.b && d.t >= 1
  {
    if k == 0 then [] else FinalBoxes(d, x, y, k - 1) + [[-VarBox(d, k, x, y, d.t - 1), VarGoal(d, x, y)]]
  }

  /** The final-goal clauses of cell (x, j), for each column j. */
  function FinalBoxesAt(d: Dims, x: int): nat -> seq<Clause>
  {
    (j: nat) => if InGrid(d, Cell(x, j)) && d.t >= 1 then FinalBoxes(d, x, j, d.b) else []
  }

  function FinalCols(d: Dims, x: int, y: nat): seq<Clause>
  {
    Gather(FinalBoxesAt(d, x), y)
  }

  /** The final-goal clauses of row i, for each row i. */
  function FinalColsAt(d: Dims): nat -> seq<Clause>
  {
    (i: nat) => FinalCols(d, i, d.m)
  }

  function FinalRows(d: Dims, x: nat): seq<Clause>
  {
    Gather(FinalColsAt(d), x)
  }

  // ---------------- 7. exactly one action per step ----------------

  /** The nine action variables of step t. */
  function ActionLits(d: Dims, t: int): (lits: seq<int>)
    requires 0 <= t < d.t
    ensures |lits| == 9
  {
    seq(9, (i: int) requires 0 <= i < 9 && 0 <= t < d.t => VarMove(d, i + 1, t))
  }

  /** The pairwise exclusions, then the clause "some action". */
  function ActionStep(d: Dims, t: int): seq<Clause>
    requires 0 <= t < d.t
  {
    AtMostOne(ActionLits(d, t)) + [ActionLits(d, t)]
  }

  /** The action clauses of time s, for each time s. */
  function ActionStepAt(d: Dims): nat -> seq<Clause>
  {
    (s: nat) => if s < d.t then ActionStep(d, s) else []
  }

  function ActionTimes(d: Dims, t: nat): seq<Clause>
  {
    Gather(ActionStepAt(d), t)
  }

  // ---------------- 8. exactly one cell for the player and for each box ----------------

  function PlayerLit(d: Dims, k: int, t: int): int
    requires 0 <= k < Cells(d) && 0 <= t < d.t
  {
    var c := CellAt(d, k);
    VarPlayer(d, c.x, c.y, t)
  }

  /** The player's variables at time t, row by row. */
  function PlayerLits(d: Dims, t: int): (lits: seq<int>)
    requires 0 <= t < d.t
    ensures |lits| == Cells(d)
  {
    seq(Cells(d), (k: int) requires 0 <= k < Cells(d) && 0 <= t < d.t => PlayerLit(d, k, t))
  }

  function BoxLit(d: Dims, b: int, k: int, t: int): int
    requires 1 <= b <= d.b && 0 <= k < Cells(d) && 0 <= t < d.t
  {
    var c := CellAt(d, k);
    VarBox(d, b, c.x, c.y, t)
  }

  /** Box b's variables at time t, row by row. */
  function BoxLits(d: Dims, b: int, t: int): (lits: seq<int>)
    requires 1 <= b <= d.b && 0 <= t < d.t
    ensures |lits| == Cells(d)
  {
    seq(Cells(d), (k: int) requires 0 <= k < Cells(d) && 1 <= b <= d.b && 0 <= t < d.t => BoxLit(d, b, k, t))
  }

  /** "Exactly one of lits": the clause, then the pairwise exclusions. */
  function ExactlyOne(lits: seq<int>): seq<Clause>
  {
    [lits] + AtMostOne(lits)
  }

  /** "Box j + 1 is in exactly one cell at t", for each j. */
  function UniqueBoxAt(d: Dims, t: int): nat -> seq<Clause>
  {
    (j: nat) => if 0 <= t < d.t && j < d.b then ExactlyOne(BoxLits(d, j + 1, t)) else []
  }

  function UniqueBoxes(d: Dims, t: int, k: nat): seq<Clause>
  {
    Gather(UniqueBoxAt(d, t), k)
  }

  function UniqueStep(d: Dims, t: int): seq<Clause>
    requires 0 <= t < d.t
  {
    ExactlyOne(PlayerLits(d, t)) + UniqueBoxes(d, t, d.b)
  }

  /** The uniqueness clauses of time s, for each time s. */
  function UniqueStepAt(d: Dims): nat -> seq<Clause>
  {
    (s: nat) => if s < d.t then UniqueStep(d, s) else []
  }

  function UniqueTimes(d: Dims, t: nat): seq<Clause>
  {
    Gather(UniqueStepAt(d), t)
  }

  // ---------------- 9. the stay action ----------------

  function StayBoxes(d: Dims, t: int, x: int, y: int, k: nat): seq<Clause>
    requires 1 <= t < d.t && InGrid(d, Cell(x, y)) && k <= d.b
  {
    if k == 0 then [] else
      StayBoxes(d, t, x, y, k - 1) + [[-VarMove(d, 9, t), -VarBox(d, k, x, y, t - 1), VarBox(d, k, x, y, t)]]
  }

  function StayCell(d: Dims, t: int, x: int, y: int): seq<Clause>
    requires 1 <= t < d.t && InGrid(d, Cell(x, y))
  {
    StayBoxes(d, t, x, y, d.b) + [[-VarMove(d, 9, t), -VarPlayer(d, x, y, t - 1), VarPlayer(d, x, y, t)]]
  }

  /** The stay clauses of cell (x, j), for each column j. */
  function StayCellAt(d: Dims, t: int, x: int): nat -> seq<Clause>
  {
    (j: nat) => if 1 <= t < d.t && InGrid(d, Cell(x, j)) then StayCell(d, t, x, j) else []
  }

  function StayCols(d: Dims, t: int, x: int, y: nat): seq<Clause>
  {
    Gather(StayCellAt(d, t, x), y)
  }

  /** The stay clauses of row i, for each row i. */
  function StayColsAt(d: Dims, t: int): nat -> seq<Clause>
  {
    (i: nat) => StayCols(d, t, i, d.m)
  }

  function StayRows(d: Dims, t: int, x: nat): seq<Clause>
  {
    Gather(StayColsAt(d, t), x)
  }

  /** The stay clauses of time s, for each time s >= 1 (time 0 contributes nothing). */
  function StayRowsAt(d: Dims): nat -> seq<Clause>
  {
    (s: nat) => if 1 <= s then StayRows(d, s, d.n) else []
  }

  function StayTimes(d: Dims, t: nat): seq<Clause>
  {
    Gather(StayRowsAt(d), t)
  }

  // ---------------- the whole formula ----------------

  /** The clauses of `encode`, families in the order it appends them. */
  function Clauses(I: Instance): seq<Clause>
    requires Valid(I)
  {
    var d := I.d;
    InitClauses(I) + GoalRows(d, I.goals, d.n) + WallList(d, I.walls, |I.walls|) + [[VarMove(d, 9, 0)]] +
    MoveRows(d, d.n) + PushRows(d, d.n) + OverlapRows(d, d.n) + FinalRows(d, d.n) +
    ActionTimes(d, d.t) + UniqueTimes(d, d.t) + StayTimes(d, d.t)
  }
}
