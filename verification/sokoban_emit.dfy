/** The loops of `SokobanEncoder.encode` (Question2/q2.py), one method per
    loop level. Each appends one clause family to the list it is given and is
    proved to append exactly that family's clauses, in order. */
module SokobanEmit {
  import opened Cnf
  import opened SokobanVars
  import opened SokobanClauses

  /** The unit clause of each box at its start cell at time 0. */
  method EmitBoxInits(d: Dims, boxes: seq<Cell>, cnf: seq<Clause>) returns (r: seq<Clause>)
    requires d.t >= 1 && |boxes| == d.b
    requires forall i :: 0 <= i < |boxes| ==> InGrid(d, boxes[i])
    ensures r == cnf + BoxInits(d, boxes, d.b)
  {
    r := cnf;
    for box := 0 to d.b
      invariant r == cnf + BoxInits(d, boxes, box)
    {
      var c := [VarBox(d, box + 1, boxes[box].x, boxes[box].y, 0)];
      ConcatAssoc(cnf, BoxInits(d, boxes, box), [c]);
      r := r + [c];
    }
  }

  /** The goal flag of every cell in row x. */
  method EmitGoalRow(d: Dims, goals: seq<Cell>, x: int, cnf: seq<Clause>) returns (r: seq<Clause>)
    requires 0 <= x < d.n
    ensures r == cnf + GoalCols(d, goals, x, d.m)
  {
    r := cnf;
    for y := 0 to d.m
      invariant r == cnf + GoalCols(d, goals, x, y)
    {
      ConcatAssoc(cnf, GoalCols(d, goals, x, y), [GoalUnit(d, goals, x, y)]);
      if Cell(x, y) in goals {
        r := r + [[VarGoal(d, x, y)]];
      } else {
        r := r + [[-VarGoal(d, x, y)]];
      }
    }
  }

  method EmitGoals(d: Dims, goals: seq<Cell>, cnf: seq<Clause>) returns (r: seq<Clause>)
    ensures r == cnf + GoalRows(d, goals, d.n)
  {
    r := cnf;
    for x := 0 to d.n
      invariant r == cnf + GoalRows(d, goals, x)
    {
      ConcatAssoc(cnf, GoalRows(d, goals, x), GoalCols(d, goals, x, d.m));
      r := EmitGoalRow(d, goals, x, r);
    }
  }

  /** Nothing on wall w at time t. */
  method EmitWallStep(d: Dims, w: Cell, t: int, cnf: seq<Clause>) returns (r: seq<Clause>)
    requires InGrid(d, w) && 0 <= t < d.t
    ensures r == cnf + WallStep(d, w, t)
  {
    var first := [[-VarPlayer(d, w.x, w.y, t)]];
    r := cnf + first;
    for box := 0 to d.b
      invariant r == cnf + first + WallBoxes(d, w, t, box)
    {
      var c := [-VarBox(d, box + 1, w.x, w.y, t)];
      ConcatAssoc(cnf + first, WallBoxes(d, w, t, box), [c]);
      r := r + [c];
    }
    ConcatAssoc(cnf, first, WallBoxes(d, w, t, d.b));
  }

  /** Every time step of one wall. */
  method EmitWallTimes(d: Dims, w: Cell, cnf: seq<Clause>) returns (r: seq<Clause>)
    requires InGrid(d, w)
    ensures r == cnf + WallTimes(d, w, d.t)
  {
    r := cnf;
    for t := 0 to d.t
      invariant r == cnf + WallTimes(d, w, t)
    {
      ConcatAssoc(cnf, WallTimes(d, w, t), WallStep(d, w, t));
      r := EmitWallStep(d, w, t, r);
    }
  }

  method EmitWalls(d: Dims, walls: seq<Cell>, cnf: seq<Clause>) returns (r: seq<Clause>)
    requires forall i :: 0 <= i < |walls| ==> InGrid(d, walls[i])
    ensures r == cnf + WallList(d, walls, |walls|)
  {
    r := cnf;
    for wall := 0 to |walls|
      invariant r == cnf + WallList(d, walls, wall)
    {
      ConcatAssoc(cnf, WallList(d, walls, wall), WallTimes(d, walls[wall], d.t));
      r := EmitWallTimes(d, walls[wall], r);
    }
  }

  /** One step from (x, y) in direction mv, as the encoder's if-chain on
      `move` computes it (the same chain appears three times in `encode`). */
  method Advance(x: int, y: int, mv: int) returns (newX: int, newY: int)
    ensures Cell(newX, newY) == Neighbour(Cell(x, y), mv)
  {
    newX, newY := x, y;
    if mv == 0 { newX := newX - 1; }
    else if mv == 1 { newY := newY + 1; }
    else if mv == 2 { newX := newX + 1; }
    else { newY := newY - 1; }
  }

  /** Plain move mv from (x, y) at time t: the box frame, then the target. */
  method EmitMoveStep(d: Dims, x: int, y: int, mv: int, t: int, cnf: seq<Clause>) returns (r: seq<Clause>)
    requires InGrid(d, Cell(x, y)) && 0 <= mv < 4 && 1 <= t < d.t
    ensures r == cnf + MoveStep(d, x, y, mv, t)
  {
    r := cnf;
    for box := 0 to d.b
      invariant r == cnf + MoveFrame(d, x, y, mv, t, box)
    {
      var c := [-VarMove(d, mv + 1, t), -VarBox(d, box + 1, x, y, t - 1), VarBox(d, box + 1, x, y, t)];
      ConcatAssoc(cnf, MoveFrame(d, x, y, mv, t, box), [c]);
      r := r + [c];
    }
    var newX, newY := Advance(x, y, mv);
    var target;
    if newX < 0 || newY < 0 || newX >= d.n || newY >= d.m {
      target := [-VarMove(d, mv + 1, t), -VarPlayer(d, x, y, t - 1)];
    } else {
      target := [-VarMove(d, mv + 1, t), -VarPlayer(d, x, y, t - 1), VarPlayer(d, newX, newY, t)];
    }
    assert target == MoveTarget(d, x, y, mv, t);
    ConcatAssoc(cnf, MoveFrame(d, x, y, mv, t, d.b), [target]);
    r := r + [target];
  }

  /** Plain move mv out of (x, y), step by step. */
  method EmitMoveDir(d: Dims, x: int, y: int, mv: int, cnf: seq<Clause>) returns (r: seq<Clause>)
    requires InGrid(d, Cell(x, y)) && 0 <= mv < 4 && d.t >= 1
    ensures r == cnf + MoveTimes(d, x, y, mv, d.t)
  {
    r := cnf;
    for t := 1 to d.t
      invariant r == cnf + MoveTimes(d, x, y, mv, t)
    {
      ConcatAssoc(cnf, MoveTimes(d, x, y, mv, t), MoveStep(d, x, y, mv, t));
      r := EmitMoveStep(d, x, y, mv, t, r);
    }
  }

  method EmitMoveCell(d: Dims, x: int, y: int, cnf: seq<Clause>) returns (r: seq<Clause>)
    requires InGrid(d, Cell(x, y)) && d.t >= 1
    ensures r == cnf + MoveDirs(d, x, y, Directions)
  {
    r := cnf;
    for mv := 0 to 4
      invariant r == cnf + MoveDirs(d, x, y, mv)
    {
      ConcatAssoc(cnf, MoveDirs(d, x, y, mv), MoveTimes(d, x, y, mv, d.t));
      r := EmitMoveDir(d, x, y, mv, r);
    }
  }

  method EmitMoveRow(d: Dims, x: int, cnf: seq<Clause>) returns (r: seq<Clause>)
    requires 0 <= x < d.n && d.t >= 1
    ensures r == cnf + MoveCols(d, x, d.m)
  {
    r := cnf;
    for y := 0 to d.m
      invariant r == cnf + MoveCols(d, x, y)
    {
      ConcatAssoc(cnf, MoveCols(d, x, y), MoveDirs(d, x, y, Directions));
      r := EmitMoveCell(d, x, y, r);
    }
  }

  method EmitMoves(d: Dims, cnf: seq<Clause>) returns (r: seq<Clause>)
    requires d.t >= 1
    ensures r == cnf + MoveRows(d, d.n)
  {
    r := cnf;
    for x := 0 to d.n
      invariant r == cnf + MoveRows(d, x)
    {
      ConcatAssoc(cnf, MoveRows(d, x), MoveCols(d, x, d.m));
      r := EmitMoveRow(d, x, r);
    }
  }

  /** Box b keeps every cell of row px other than the one ahead (ax, ay). */
  method EmitPushKeepRow(d: Dims, x: int, y: int, t: int, mv: int, b: int, ax: int, ay: int, px: int,
                         cnf: seq<Clause>) returns (r: seq<Clause>)
    requires InGrid(d, Cell(x, y)) && 1 <= t < d.t && 0 <= mv < 4 && 1 <= b <= d.b && 0 <= px < d.n
    requires Cell(ax, ay) == Neighbour(Cell(x, y), mv)
    ensures r == cnf + PushKeepCols(d, x, y, t, mv, b, px, d.m)
  {
    r := cnf;
    for py := 0 to d.m
      invariant r == cnf + PushKeepCols(d, x, y, t, mv, b, px, py)
    {
      ConcatAssoc(cnf, PushKeepCols(d, x, y, t, mv, b, px, py), PushKeep(d, x, y, t, mv, b, px, py));
      if (px, py) != (ax, ay) {
        r := r + [[-VarMove(d, mv + 5, t), -VarPlayer(d, x, y, t - 1), -VarBox(d, b, px, py, t - 1), VarBox(d, b, px, py, t)]];
      }
    }
  }

  method EmitPushKeep(d: Dims, x: int, y: int, t: int, mv: int, b: int, ax: int, ay: int, cnf: seq<Clause>)
    returns (r: seq<Clause>)
    requires InGrid(d, Cell(x, y)) && 1 <= t < d.t && 0 <= mv < 4 && 1 <= b <= d.b
    requires Cell(ax, ay) == Neighbour(Cell(x, y), mv)
    ensures r == cnf + PushKeepRows(d, x, y, t, mv, b, d.n)
  {
    r := cnf;
    for px := 0 to d.n
      invariant r == cnf + PushKeepRows(d, x, y, t, mv, b, px)
    {
      ConcatAssoc(cnf, PushKeepRows(d, x, y, t, mv, b, px), PushKeepCols(d, x, y, t, mv, b, px, d.m));
      r := EmitPushKeepRow(d, x, y, t, mv, b, ax, ay, px, r);
    }
  }

  /** Box b ahead at (ax, ay) is pushed to (zx, zy) and the player follows
      it; box b anywhere else stays. */
  method EmitPushBox(d: Dims, x: int, y: int, t: int, mv: int, b: int, ax: int, ay: int, zx: int, zy: int,
                     cnf: seq<Clause>) returns (r: seq<Clause>)
    requires InGrid(d, Cell(x, y)) && 1 <= t < d.t && 0 <= mv < 4 && 1 <= b <= d.b
    requires Cell(ax, ay) == Neighbour(Cell(x, y), mv) && Cell(zx, zy) == Neighbour(Cell(ax, ay), mv)
    requires InGrid(d, Cell(ax, ay)) && InGrid(d, Cell(zx, zy))
    ensures r == cnf + PushBox(d, x, y, t, mv, b)
  {
    var moved :=
      [[-VarMove(d, mv + 5, t), -VarPlayer(d, x, y, t - 1), -VarBox(d, b, ax, ay, t - 1), VarPlayer(d, ax, ay, t)]] +
      [[-VarMove(d, mv + 5, t), -VarPlayer(d, x, y, t - 1), -VarBox(d, b, ax, ay, t - 1), VarBox(d, b, zx, zy, t)]];
    r := cnf + moved;
    r := EmitPushKeep(d, x, y, t, mv, b, ax, ay, r);
    ConcatAssoc(cnf, moved, PushKeepRows(d, x, y, t, mv, b, d.n));
  }

  /** The per-box push clauses grow by one box at a time. */
  lemma PushBoxesNext(d: Dims, x: int, y: int, t: int, mv: int, box: nat)
    requires InGrid(d, Cell(x, y)) && 1 <= t < d.t && 0 <= mv < 4 && box < d.b
    requires InGrid(d, Neighbour(Cell(x, y), mv)) && InGrid(d, Neighbour(Neighbour(Cell(x, y), mv), mv))
    ensures PushBoxes(d, x, y, t, mv, box + 1) == PushBoxes(d, x, y, t, mv, box) + PushBox(d, x, y, t, mv, box + 1)
  {
    assert PushBoxAt(d, x, y, t, mv)(box) == PushBox(d, x, y, t, mv, box + 1);
  }

  /** The ahead literals grow by one box at a time. */
  lemma AheadLitsNext(d: Dims, x: int, y: int, t: int, mv: int, box: nat, ax: int, ay: int)
    requires InGrid(d, Cell(x, y)) && 1 <= t < d.t && 0 <= mv < 4 && box < d.b
    requires Cell(ax, ay) == Neighbour(Cell(x, y), mv) && InGrid(d, Cell(ax, ay))
    ensures AheadLits(d, x, y, t, mv, box + 1) == AheadLits(d, x, y, t, mv, box) + [VarBox(d, box + 1, ax, ay, t - 1)]
  {
  }

  /** The per-box clauses of a push that stays on the grid, while the
      clause "some box is ahead" is collected. */
  method EmitPushBoxes(d: Dims, x: int, y: int, t: int, mv: int, ax: int, ay: int, zx: int, zy: int,
                       cnf: seq<Clause>) returns (r: seq<Clause>, clause: Clause)
    requires InGrid(d, Cell(x, y)) && 1 <= t < d.t && 0 <= mv < 4
    requires Cell(ax, ay) == Neighbour(Cell(x, y), mv) && Cell(zx, zy) == Neighbour(Cell(ax, ay), mv)
    requires InGrid(d, Cell(ax, ay)) && InGrid(d, Cell(zx, zy))
    ensures r == cnf + PushBoxes(d, x, y, t, mv, d.b)
    ensures clause == AheadClause(d, x, y, t, mv)
  {
    var head := [-VarMove(d, mv + 5, t), -VarPlayer(d, x, y, t - 1)];
    clause := head;
    r := cnf;
    for box := 0 to d.b
      invariant r == cnf + PushBoxes(d, x, y, t, mv, box)
      invariant clause == head + AheadLits(d, x, y, t, mv, box)
    {
      clause := clause + [VarBox(d, box + 1, ax, ay, t - 1)];
      AheadLitsNext(d, x, y, t, mv, box, ax, ay);
      PushBoxesNext(d, x, y, t, mv, box);
      ConcatAssoc(cnf, PushBoxes(d, x, y, t, mv, box), PushBox(d, x, y, t, mv, box + 1));
      r := EmitPushBox(d, x, y, t, mv, box + 1, ax, ay, zx, zy, r);
    }
  }

  /** Push mv from (x, y) at time t: the per-box clauses, then "some box ahead". */
  method EmitPushStep(d: Dims, x: int, y: int, t: int, mv: int, cnf: seq<Clause>) returns (r: seq<Clause>)
    requires InGrid(d, Cell(x, y)) && 1 <= t < d.t && 0 <= mv < 4
    ensures r == cnf + PushStep(d, x, y, t, mv)
  {
    var newX, newY := Advance(x, y, mv);
    var boxX, boxY := Advance(newX, newY, mv);
    if newX < 0 || newY < 0 || newX >= d.n || newY >= d.m || boxX < 0 || boxY < 0 || boxX >= d.n || boxY >= d.m {
      r := cnf + [[-VarMove(d, mv + 5, t), -VarPlayer(d, x, y, t - 1)]];
    } else {
      var clause;
      r, clause := EmitPushBoxes(d, x, y, t, mv, newX, newY, boxX, boxY, cnf);
      ConcatAssoc(cnf, PushBoxes(d, x, y, t, mv, d.b), [clause]);
      r := r + [clause];
    }
  }

  method EmitPushDirs(d: Dims, x: int, y: int, t: int, cnf: seq<Clause>) returns (r: seq<Clause>)
    requires InGrid(d, Cell(x, y)) && 1 <= t < d.t
    ensures r == cnf + PushDirs(d, x, y, t, Directions)
  {
    r := cnf;
    for mv := 0 to 4
      invariant r == cnf + PushDirs(d, x, y, t, mv)
    {
      ConcatAssoc(cnf, PushDirs(d, x, y, t, mv), PushStep(d, x, y, t, mv));
      r := EmitPushStep(d, x, y, t, mv, r);
    }
  }

  method EmitPushCell(d: Dims, x: int, y: int, cnf: seq<Clause>) returns (r: seq<Clause>)
    requires InGrid(d, Cell(x, y)) && d.t >= 1
    ensures r == cnf + PushTimes(d, x, y, d.t)
  {
    r := cnf;
    for t := 1 to d.t
      invariant r == cnf + PushTimes(d, x, y, t)
    {
      ConcatAssoc(cnf, PushTimes(d, x, y, t), PushDirs(d, x, y, t, Directions));
      r := EmitPushDirs(d, x, y, t, r);
    }
  }

  method EmitPushRow(d: Dims, x: int, cnf: seq<Clause>) returns (r: seq<Clause>)
    requires 0 <= x < d.n && d.t >= 1
    ensures r == cnf + PushCols(d, x, d.m)
  {
    r := cnf;
    for y := 0 to d.m
      invariant r == cnf + PushCols(d, x, y)
    {
      ConcatAssoc(cnf, PushCols(d, x, y), PushTimes(d, x, y, d.t));
      r := EmitPushCell(d, x, y, r);
    }
  }

  method EmitPushes(d: Dims, cnf: seq<Clause>) returns (r: seq<Clause>)
    requires d.t >= 1
    ensures r == cnf + PushRows(d, d.n)
  {
    r := cnf;
    for x := 0 to d.n
      invariant r == cnf + PushRows(d, x)
    {
      ConcatAssoc(cnf, PushRows(d, x), PushCols(d, x, d.m));
      r := EmitPushRow(d, x, r);
    }
  }

  /** Box b (from 1) at (x, y) at time t shares its cell with neither the
      player nor a later box. */
  method EmitOverlapStep(d: Dims, x: int, y: int, b: int, t: int, cnf: seq<Clause>) returns (r: seq<Clause>)
    requires InGrid(d, Cell(x, y)) && 1 <= b <= d.b && 0 <= t < d.t
    ensures r == cnf + OverlapStep(d, x, y, b, t)
  {
    var first := [[-VarPlayer(d, x, y, t), -VarBox(d, b, x, y, t)]];
    r := cnf + first;
    for boxd := b to d.b
      invariant r == cnf + first + OverlapPairs(d, x, y, b, t, boxd)
    {
      var c := [-VarBox(d, b, x, y, t), -VarBox(d, boxd + 1, x, y, t)];
      ConcatAssoc(cnf + first, OverlapPairs(d, x, y, b, t, boxd), [c]);
      r := r + [c];
    }
    ConcatAssoc(cnf, first, OverlapPairs(d, x, y, b, t, d.b));
  }

  /** Box b on (x, y), time by time. */
  method EmitOverlapBox(d: Dims, x: int, y: int, b: int, cnf: seq<Clause>) returns (r: seq<Clause>)
    requires InGrid(d, Cell(x, y)) && 1 <= b <= d.b
    ensures r == cnf + OverlapTimes(d, x, y, b, d.t)
  {
    r := cnf;
    for t := 0 to d.t
      invariant r == cnf + OverlapTimes(d, x, y, b, t)
    {
      ConcatAssoc(cnf, OverlapTimes(d, x, y, b, t), OverlapStep(d, x, y, b, t));
      r := EmitOverlapStep(d, x, y, b, t, r);
    }
  }

  method EmitOverlapCell(d: Dims, x: int, y: int, cnf: seq<Clause>) returns (r: seq<Clause>)
    requires InGrid(d, Cell(x, y))
    ensures r == cnf + OverlapBoxes(d, x, y, d.b)
  {
    r := cnf;
    for box := 0 to d.b
      invariant r == cnf + OverlapBoxes(d, x, y, box)
    {
      ConcatAssoc(cnf, OverlapBoxes(d, x, y, box), OverlapTimes(d, x, y, box + 1, d.t));
      r := EmitOverlapBox(d, x, y, box + 1, r);
    }
  }

  method EmitOverlapRow(d: Dims, x: int, cnf: seq<Clause>) returns (r: seq<Clause>)
    requires 0 <= x < d.n
    ensures r == cnf + OverlapCols(d, x, d.m)
  {
    r := cnf;
    for y := 0 to d.m
      invariant r == cnf + OverlapCols(d, x, y)
    {
      ConcatAssoc(cnf, OverlapCols(d, x, y), OverlapBoxes(d, x, y, d.b));
      r := EmitOverlapCell(d, x, y, r);
    }
  }

  method EmitOverlaps(d: Dims, cnf: seq<Clause>) returns (r: seq<Clause>)
    ensures r == cnf + OverlapRows(d, d.n)
  {
    r := cnf;
    for x := 0 to d.n
      invariant r == cnf + OverlapRows(d, x)
    {
      ConcatAssoc(cnf, OverlapRows(d, x), OverlapCols(d, x, d.m));
      r := EmitOverlapRow(d, x, r);
    }
  }

  /** At the last step each box on (x, y) makes (x, y) a goal. */
  method EmitFinalCell(d: Dims, x: int, y: int, cnf: seq<Clause>) returns (r: seq<Clause>)
    requires InGrid(d, Cell(x, y)) && d.t >= 1
    ensures r == cnf + FinalBoxes(d, x, y, d.b)
  {
    r := cnf;
    for box := 0 to d.b
      invariant r == cnf + FinalBoxes(d, x, y, box)
    {
      var c := [-VarBox(d, box + 1, x, y, d.t - 1), VarGoal(d, x, y)];
      ConcatAssoc(cnf, FinalBoxes(d, x, y, box), [c]);
      r := r + [c];
    }
  }

  method EmitFinalRow(d: Dims, x: int, cnf: seq<Clause>) returns (r: seq<Clause>)
    requires 0 <= x < d.n && d.t >= 1
    ensures r == cnf + FinalCols(d, x, d.m)
  {
    r := cnf;
    for y := 0 to d.m
      invariant r == cnf + FinalCols(d, x, y)
    {
      ConcatAssoc(cnf, FinalCols(d, x, y), FinalBoxes(d, x, y, d.b));
      r := EmitFinalCell(d, x, y, r);
    }
  }

  method EmitFinals(d: Dims, cnf: seq<Clause>) returns (r: seq<Clause>)
    requires d.t >= 1
    ensures r == cnf + FinalRows(d, d.n)
  {
    r := cnf;
    for x := 0 to d.n
      invariant r == cnf + FinalRows(d, x)
    {
      ConcatAssoc(cnf, FinalRows(d, x), FinalCols(d, x, d.m));
      r := EmitFinalRow(d, x, r);
    }
  }

  /** The nine actions at t: the pairwise exclusions, collected while the
      clause "some action" is built, then that clause. */
  method EmitActionStep(d: Dims, t: int, cnf: seq<Clause>) returns (r: seq<Clause>)
    requires 0 <= t < d.t
    ensures r == cnf + ActionStep(d, t)
  {
    var lits := ActionLits(d, t);
    r := AppendPairsThenClause(cnf, lits);
    ConcatAssoc(cnf, AtMostOne(lits), [lits]);
  }

  method EmitActions(d: Dims, cnf: seq<Clause>) returns (r: seq<Clause>)
    ensures r == cnf + ActionTimes(d, d.t)
  {
    r := cnf;
    for t := 0 to d.t
      invariant r == cnf + ActionTimes(d, t)
    {
      ConcatAssoc(cnf, ActionTimes(d, t), ActionStep(d, t));
      r := EmitActionStep(d, t, r);
    }
  }

  /** The clause "one of lits", then the pairwise exclusions. */
  method EmitExactlyOne(lits: seq<int>, cnf: seq<Clause>) returns (r: seq<Clause>)
    ensures r == cnf + ExactlyOne(lits)
  {
    r := cnf + [lits];
    r := AppendAtMostOne(r, lits);
    ConcatAssoc(cnf, [lits], AtMostOne(lits));
  }

  /** Exactly one cell for the player, then for each box, at time t. */
  method EmitUniqueStep(d: Dims, t: int, cnf: seq<Clause>) returns (r: seq<Clause>)
    requires 0 <= t < d.t
    ensures r == cnf + UniqueStep(d, t)
  {
    var clause := PlayerLits(d, t);
    r := EmitExactlyOne(clause, cnf);
    ghost var first := ExactlyOne(clause);
    for box := 0 to d.b
      invariant r == cnf + first + UniqueBoxes(d, t, box)
    {
      var bclause := BoxLits(d, box + 1, t);
      ConcatAssoc(cnf + first, UniqueBoxes(d, t, box), ExactlyOne(bclause));
      r := EmitExactlyOne(bclause, r);
    }
    ConcatAssoc(cnf, first, UniqueBoxes(d, t, d.b));
  }

  method EmitUniques(d: Dims, cnf: seq<Clause>) returns (r: seq<Clause>)
    ensures r == cnf + UniqueTimes(d, d.t)
  {
    r := cnf;
    for t := 0 to d.t
      invariant r == cnf + UniqueTimes(d, t)
    {
      ConcatAssoc(cnf, UniqueTimes(d, t), UniqueStep(d, t));
      r := EmitUniqueStep(d, t, r);
    }
  }

  /** The stay action at t keeps every box and the player on (x, y). */
  method EmitStayCell(d: Dims, t: int, x: int, y: int, cnf: seq<Clause>) returns (r: seq<Clause>)
    requires 1 <= t < d.t && InGrid(d, Cell(x, y))
    ensures r == cnf + StayCell(d, t, x, y)
  {
    r := cnf;
    for box := 0 to d.b
      invariant r == cnf + StayBoxes(d, t, x, y, box)
    {
      var c := [-VarMove(d, 9, t), -VarBox(d, box + 1, x, y, t - 1), VarBox(d, box + 1, x, y, t)];
      ConcatAssoc(cnf, StayBoxes(d, t, x, y, box), [c]);
      r := r + [c];
    }
    var last := [-VarMove(d, 9, t), -VarPlayer(d, x, y, t - 1), VarPlayer(d, x, y, t)];
    ConcatAssoc(cnf, StayBoxes(d, t, x, y, d.b), [last]);
    r := r + [last];
  }

  method EmitStayRow(d: Dims, t: int, x: int, cnf: seq<Clause>) returns (r: seq<Clause>)
    requires 1 <= t < d.t && 0 <= x < d.n
    ensures r == cnf + StayCols(d, t, x, d.m)
  {
    r := cnf;
    for y := 0 to d.m
      invariant r == cnf + StayCols(d, t, x, y)
    {
      ConcatAssoc(cnf, StayCols(d, t, x, y), StayCell(d, t, x, y));
      r := EmitStayCell(d, t, x, y, r);
    }
  }

  method EmitStayStep(d: Dims, t: int, cnf: seq<Clause>) returns (r: seq<Clause>)
    requires 1 <= t < d.t
    ensures r == cnf + StayRows(d, t, d.n)
  {
    r := cnf;
    for x := 0 to d.n
      invariant r == cnf + StayRows(d, t, x)
    {
      ConcatAssoc(cnf, StayRows(d, t, x), StayCols(d, t, x, d.m));
      r := EmitStayRow(d, t, x, r);
    }
  }

  method EmitStays(d: Dims, cnf: seq<Clause>) returns (r: seq<Clause>)
    requires d.t >= 1
    ensures r == cnf + StayTimes(d, d.t)
  {
    r := cnf;
    for t := 1 to d.t
      invariant r == cnf + StayTimes(d, t)
    {
      ConcatAssoc(cnf, StayTimes(d, t), StayRows(d, t, d.n));
      r := EmitStayStep(d, t, r);
    }
  }
}
