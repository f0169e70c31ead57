/** Each Sokoban clause family is built loop level by loop level; these
    lemmas take it apart again. A model of a family is a model of every part
    its loop appended ("Part" lemmas), and every literal of every family is a
    variable of the numbering ("Within" lemmas). */
module SokobanFamilies {
  import opened Cnf
  import opened SokobanVars
  import opened SokobanClauses

  // ---------------- a model of a family is a model of each part ----------------

  lemma {:induction false} BoxInitsPart(m: seq<int>, d: Dims, boxes: seq<Cell>, k: nat, i: nat)
    requires d.t >= 1 && |boxes| == d.b && k <= d.b && (forall c :: 0 <= c < |boxes| ==> InGrid(d, boxes[c]))
    requires i < k && Satisfies(m, BoxInits(d, boxes, k))
    ensures ClauseTrue(m, [VarBox(d, i + 1, boxes[i].x, boxes[i].y, 0)])
  {
    SatisfiesConcat(m, BoxInits(d, boxes, k - 1), [[VarBox(d, k, boxes[k - 1].x, boxes[k - 1].y, 0)]]);
    if i < k - 1 {
      BoxInitsPart(m, d, boxes, k - 1, i);
    }
  }

  lemma {:induction false} GoalColsPart(m: seq<int>, d: Dims, goals: seq<Cell>, x: int, y: nat, j: nat)
    requires 0 <= x < d.n && y <= d.m
    requires j < y && Satisfies(m, GoalCols(d, goals, x, y))
    ensures ClauseTrue(m, GoalUnit(d, goals, x, j))
  {
    SatisfiesConcat(m, GoalCols(d, goals, x, y - 1), [GoalUnit(d, goals, x, y - 1)]);
    if j < y - 1 {
      GoalColsPart(m, d, goals, x, y - 1, j);
    }
  }

  lemma GoalRowsPart(m: seq<int>, d: Dims, goals: seq<Cell>, x: nat, i: nat)
    requires x <= d.n
    requires i < x && Satisfies(m, GoalRows(d, goals, x))
    ensures Satisfies(m, GoalCols(d, goals, i, d.m))
  {
    GatherPart(m, GoalColsAt(d, goals), x, i);
  }

  lemma {:induction false} WallBoxesPart(m: seq<int>, d: Dims, w: Cell, t: int, k: nat, b: int)
    requires InGrid(d, w) && 0 <= t < d.t && k <= d.b
    requires 1 <= b <= k && Satisfies(m, WallBoxes(d, w, t, k))
    ensures ClauseTrue(m, [-VarBox(d, b, w.x, w.y, t)])
  {
    SatisfiesConcat(m, WallBoxes(d, w, t, k - 1), [[-VarBox(d, k, w.x, w.y, t)]]);
    if b < k {
      WallBoxesPart(m, d, w, t, k - 1, b);
    }
  }

  lemma WallTimesPart(m: seq<int>, d: Dims, w: Cell, t: nat, s: nat)
    requires InGrid(d, w) && t <= d.t
    requires s < t && Satisfies(m, WallTimes(d, w, t))
    ensures Satisfies(m, WallStep(d, w, s))
  {
    GatherPart(m, WallStepAt(d, w), t, s);
  }

  lemma WallListPart(m: seq<int>, d: Dims, walls: seq<Cell>, k: nat, i: nat)
    requires k <= |walls| && (forall c :: 0 <= c < |walls| ==> InGrid(d, walls[c]))
    requires i < k && Satisfies(m, WallList(d, walls, k))
    ensures Satisfies(m, WallTimes(d, walls[i], d.t))
  {
    GatherPart(m, WallTimesAt(d, walls), k, i);
  }

  lemma {:induction false} MoveFramePart(m: seq<int>, d: Dims, x: int, y: int, mv: int, t: int, k: nat, b: int)
    requires InGrid(d, Cell(x, y)) && 0 <= mv < 4 && 1 <= t < d.t && k <= d.b
    requires 1 <= b <= k && Satisfies(m, MoveFrame(d, x, y, mv, t, k))
    ensures ClauseTrue(m, [-VarMove(d, mv + 1, t), -VarBox(d, b, x, y, t - 1), VarBox(d, b, x, y, t)])
  {
    SatisfiesConcat(m, MoveFrame(d, x, y, mv, t, k - 1), [[-VarMove(d, mv + 1, t), -VarBox(d, k, x, y, t - 1), VarBox(d, k, x, y, t)]]);
    if b < k {
      MoveFramePart(m, d, x, y, mv, t, k - 1, b);
    }
  }

  lemma MoveTimesPart(m: seq<int>, d: Dims, x: int, y: int, mv: int, t: nat, s: int)
    requires InGrid(d, Cell(x, y)) && 0 <= mv < 4 && 1 <= t <= d.t
    requires 1 <= s < t && Satisfies(m, MoveTimes(d, x, y, mv, t))
    ensures Satisfies(m, MoveStep(d, x, y, mv, s))
  {
    GatherPart(m, MoveStepAt(d, x, y, mv), t, s);
  }

  lemma MoveDirsPart(m: seq<int>, d: Dims, x: int, y: int, k: nat, mv: nat)
    requires InGrid(d, Cell(x, y)) && k <= Directions && d.t >= 1
    requires mv < k && Satisfies(m, MoveDirs(d, x, y, k))
    ensures Satisfies(m, MoveTimes(d, x, y, mv, d.t))
  {
    GatherPart(m, MoveTimesAt(d, x, y), k, mv);
  }

  lemma MoveColsPart(m: seq<int>, d: Dims, x: int, y: nat, j: nat)
    requires 0 <= x < d.n && y <= d.m && d.t >= 1
    requires j < y && Satisfies(m, MoveCols(d, x, y))
    ensures Satisfies(m, MoveDirs(d, x, j, Directions))
  {
    GatherPart(m, MoveDirsAt(d, x), y, j);
  }

  lemma MoveRowsPart(m: seq<int>, d: Dims, x: nat, i: nat)
    requires x <= d.n && d.t >= 1
    requires i < x && Satisfies(m, MoveRows(d, x))
    ensures Satisfies(m, MoveCols(d, i, d.m))
  {
    GatherPart(m, MoveColsAt(d), x, i);
  }

  lemma PushKeepColsPart(m: seq<int>, d: Dims, x: int, y: int, t: int, mv: int, b: int, px: int, py: nat, j: nat)
    requires InGrid(d, Cell(x, y)) && 1 <= t < d.t && 0 <= mv < 4 && 1 <= b <= d.b && 0 <= px < d.n && py <= d.m
    requires j < py && Satisfies(m, PushKeepCols(d, x, y, t, mv, b, px, py))
    ensures Satisfies(m, PushKeep(d, x, y, t, mv, b, px, j))
  {
    GatherPart(m, PushKeepAt(d, x, y, t, mv, b, px), py, j);
  }

  lemma PushKeepRowsPart(m: seq<int>, d: Dims, x: int, y: int, t: int, mv: int, b: int, px: nat, i: nat)
    requires InGrid(d, Cell(x, y)) && 1 <= t < d.t && 0 <= mv < 4 && 1 <= b <= d.b && px <= d.n
    requires i < px && Satisfies(m, PushKeepRows(d, x, y, t, mv, b, px))
    ensures Satisfies(m, PushKeepCols(d, x, y, t, mv, b, i, d.m))
  {
    GatherPart(m, PushKeepColsAt(d, x, y, t, mv, b), px, i);
  }

  lemma PushBoxesPart(m: seq<int>, d: Dims, x: int, y: int, t: int, mv: int, k: nat, b: int)
    requires InGrid(d, Cell(x, y)) && 1 <= t < d.t && 0 <= mv < 4 && k <= d.b && InGrid(d, Neighbour(Cell(x, y), mv)) && InGrid(d, Neighbour(Neighbour(Cell(x, y), mv), mv))
    requires 1 <= b <= k && Satisfies(m, PushBoxes(d, x, y, t, mv, k))
    ensures Satisfies(m, PushBox(d, x, y, t, mv, b))
  {
    var j := b - 1;
    GatherPart(m, PushBoxAt(d, x, y, t, mv), k, j);
    assert PushBoxAt(d, x, y, t, mv)(j) == PushBox(d, x, y, t, mv, b);
  }

  lemma PushDirsPart(m: seq<int>, d: Dims, x: int, y: int, t: int, k: nat, mv: nat)
    requires InGrid(d, Cell(x, y)) && 1 <= t < d.t && k <= Directions
    requires mv < k && Satisfies(m, PushDirs(d, x, y, t, k))
    ensures Satisfies(m, PushStep(d, x, y, t, mv))
  {
    GatherPart(m, PushStepAt(d, x, y, t), k, mv);
  }

  lemma PushTimesPart(m: seq<int>, d: Dims, x: int, y: int, t: nat, s: int)
    requires InGrid(d, Cell(x, y)) && 1 <= t <= d.t
    requires 1 <= s < t && Satisfies(m, PushTimes(d, x, y, t))
    ensures Satisfies(m, PushDirs(d, x, y, s, Directions))
  {
    GatherPart(m, PushDirsAt(d, x, y), t, s);
  }

  lemma PushColsPart(m: seq<int>, d: Dims, x: int, y: nat, j: nat)
    requires 0 <= x < d.n && y <= d.m && d.t >= 1
    requires j < y && Satisfies(m, PushCols(d, x, y))
    ensures Satisfies(m, PushTimes(d, x, j, d.t))
  {
    GatherPart(m, PushTimesAt(d, x), y, j);
  }

  lemma PushRowsPart(m: seq<int>, d: Dims, x: nat, i: nat)
    requires x <= d.n && d.t >= 1
    requires i < x && Satisfies(m, PushRows(d, x))
    ensures Satisfies(m, PushCols(d, i, d.m))
  {
    GatherPart(m, PushColsAt(d), x, i);
  }

  lemma {:induction false} OverlapPairsPart(m: seq<int>, d: Dims, x: int, y: int, b: int, t: int, k: nat, b': int)
    requires InGrid(d, Cell(x, y)) && 1 <= b <= d.b && 0 <= t < d.t && k <= d.b
    requires b + 1 <= b' <= k && Satisfies(m, OverlapPairs(d, x, y, b, t, k))
    ensures ClauseTrue(m, [-VarBox(d, b, x, y, t), -VarBox(d, b', x, y, t)])
  {
    SatisfiesConcat(m, OverlapPairs(d, x, y, b, t, k - 1), [[-VarBox(d, b, x, y, t), -VarBox(d, k, x, y, t)]]);
    if b' < k {
      OverlapPairsPart(m, d, x, y, b, t, k - 1, b');
    }
  }

  lemma OverlapTimesPart(m: seq<int>, d: Dims, x: int, y: int, b: int, t: nat, s: nat)
    requires InGrid(d, Cell(x, y)) && 1 <= b <= d.b && t <= d.t
    requires s < t && Satisfies(m, OverlapTimes(d, x, y, b, t))
    ensures Satisfies(m, OverlapStep(d, x, y, b, s))
  {
    GatherPart(m, OverlapStepAt(d, x, y, b), t, s);
  }

  lemma OverlapBoxesPart(m: seq<int>, d: Dims, x: int, y: int, k: nat, b: int)
    requires InGrid(d, Cell(x, y)) && k <= d.b
    requires 1 <= b <= k && Satisfies(m, OverlapBoxes(d, x, y, k))
    ensures Satisfies(m, OverlapTimes(d, x, y, b, d.t))
  {
    var j := b - 1;
    GatherPart(m, OverlapTimesAt(d, x, y), k, j);
    assert OverlapTimesAt(d, x, y)(j) == OverlapTimes(d, x, y, b, d.t);
  }

  lemma OverlapColsPart(m: seq<int>, d: Dims, x: int, y: nat, j: nat)
    requires 0 <= x < d.n && y <= d.m
    requires j < y && Satisfies(m, OverlapCols(d, x, y))
    ensures Satisfies(m, OverlapBoxes(d, x, j, d.b))
  {
    GatherPart(m, OverlapBoxesAt(d, x), y, j);
  }

  lemma OverlapRowsPart(m: seq<int>, d: Dims, x: nat, i: nat)
    requires x <= d.n
    requires i < x && Satisfies(m, OverlapRows(d, x))
    ensures Satisfies(m, OverlapCols(d, i, d.m))
  {
    GatherPart(m, OverlapColsAt(d), x, i);
  }

  lemma {:induction false} FinalBoxesPart(m: seq<int>, d: Dims, x: int, y: int, k: nat, b: int)
    requires InGrid(d, Cell(x, y)) && k <= d.b && d.t >= 1
    requires 1 <= b <= k && Satisfies(m, FinalBoxes(d, x, y, k))
    ensures ClauseTrue(m, [-VarBox(d, b, x, y, d.t - 1), VarGoal(d, x, y)])
  {
    SatisfiesConcat(m, FinalBoxes(d, x, y, k - 1), [[-VarBox(d, k, x, y, d.t - 1), VarGoal(d, x, y)]]);
    if b < k {
      FinalBoxesPart(m, d, x, y, k - 1, b);
    }
  }

  lemma FinalColsPart(m: seq<int>, d: Dims, x: int, y: nat, j: nat)
    requires 0 <= x < d.n && y <= d.m && d.t >= 1
    requires j < y && Satisfies(m, FinalCols(d, x, y))
    ensures Satisfies(m, FinalBoxes(d, x, j, d.b))
  {
    GatherPart(m, FinalBoxesAt(d, x), y, j);
  }

  lemma FinalRowsPart(m: seq<int>, d: Dims, x: nat, i: nat)
    requires x <= d.n && d.t >= 1
    requires i < x && Satisfies(m, FinalRows(d, x))
    ensures Satisfies(m, FinalCols(d, i, d.m))
  {
    GatherPart(m, FinalColsAt(d), x, i);
  }

  lemma ActionTimesPart(m: seq<int>, d: Dims, t: nat, s: nat)
    requires t <= d.t
    requires s < t && Satisfies(m, ActionTimes(d, t))
    ensures Satisfies(m, ActionStep(d, s))
  {
    GatherPart(m, ActionStepAt(d), t, s);
  }

  lemma UniqueBoxesPart(m: seq<int>, d: Dims, t: int, k: nat, b: int)
    requires 0 <= t < d.t && k <= d.b
    requires 1 <= b <= k && Satisfies(m, UniqueBoxes(d, t, k))
    ensures Satisfies(m, ExactlyOne(BoxLits(d, b, t)))
  {
    var j := b - 1;
    GatherPart(m, UniqueBoxAt(d, t), k, j);
    assert UniqueBoxAt(d, t)(j) == ExactlyOne(BoxLits(d, b, t));
  }

  lemma UniqueTimesPart(m: seq<int>, d: Dims, t: nat, s: nat)
    requires t <= d.t
    requires s < t && Satisfies(m, UniqueTimes(d, t))
    ensures Satisfies(m, UniqueStep(d, s))
  {
    GatherPart(m, UniqueStepAt(d), t, s);
  }

  lemma {:induction false} StayBoxesPart(m: seq<int>, d: Dims, t: int, x: int, y: int, k: nat, b: int)
    requires 1 <= t < d.t && InGrid(d, Cell(x, y)) && k <= d.b
    requires 1 <= b <= k && Satisfies(m, StayBoxes(d, t, x, y, k))
    ensures ClauseTrue(m, [-VarMove(d, 9, t), -VarBox(d, b, x, y, t - 1), VarBox(d, b, x, y, t)])
  {
    SatisfiesConcat(m, StayBoxes(d, t, x, y, k - 1), [[-VarMove(d, 9, t), -VarBox(d, k, x, y, t - 1), VarBox(d, k, x, y, t)]]);
    if b < k {
      StayBoxesPart(m, d, t, x, y, k - 1, b);
    }
  }

  lemma StayColsPart(m: seq<int>, d: Dims, t: int, x: int, y: nat, j: nat)
    requires 1 <= t < d.t && 0 <= x < d.n && y <= d.m
    requires j < y && Satisfies(m, StayCols(d, t, x, y))
    ensures Satisfies(m, StayCell(d, t, x, j))
  {
    GatherPart(m, StayCellAt(d, t, x), y, j);
  }

  lemma StayRowsPart(m: seq<int>, d: Dims, t: int, x: nat, i: nat)
    requires 1 <= t < d.t && x <= d.n
    requires i < x && Satisfies(m, StayRows(d, t, x))
    ensures Satisfies(m, StayCols(d, t, i, d.m))
  {
    GatherPart(m, StayColsAt(d, t), x, i);
  }

  lemma StayTimesPart(m: seq<int>, d: Dims, t: nat, s: int)
    requires 1 <= t <= d.t
    requires 1 <= s < t && Satisfies(m, StayTimes(d, t))
    ensures Satisfies(m, StayRows(d, s, d.n))
  {
    GatherPart(m, StayRowsAt(d), t, s);
  }

  // ---------------- every literal is a variable of the numbering ----------------

  /** "Exactly one" over literals within the bound stays within it. */
  lemma ExactlyOneWithin(lits: seq<int>, bound: int)
    requires ClauseWithin(lits, bound)
    ensures AllWithin(ExactlyOne(lits), bound)
  {
    AtMostOneWithin(lits, bound);
    AllWithinConcat([lits], AtMostOne(lits), bound);
  }

  lemma PlayerLitsWithin(d: Dims, t: int)
    requires 0 <= t < d.t
    ensures ClauseWithin(PlayerLits(d, t), NumVars(d))
  {
    Layout(d);
    var lits := PlayerLits(d, t);
    forall j | 0 <= j < |lits|
      ensures lits[j] != 0 && Abs(lits[j]) <= NumVars(d)
    {
      assert lits[j] == PlayerLit(d, j, t);
    }
  }

  lemma BoxLitsWithin(d: Dims, b: int, t: int)
    requires 1 <= b <= d.b && 0 <= t < d.t
    ensures ClauseWithin(BoxLits(d, b, t), NumVars(d))
  {
    Layout(d);
    var lits := BoxLits(d, b, t);
    forall j | 0 <= j < |lits|
      ensures lits[j] != 0 && Abs(lits[j]) <= NumVars(d)
    {
      assert lits[j] == BoxLit(d, b, j, t);
    }
  }

  lemma {:induction false} AheadLitsWithin(d: Dims, x: int, y: int, t: int, mv: int, k: nat)
    requires 1 <= t < d.t && 0 <= mv < 4 && k <= d.b
    requires InGrid(d, Neighbour(Cell(x, y), mv))
    ensures ClauseWithin(AheadLits(d, x, y, t, mv, k), NumVars(d))
  {
    if k > 0 {
      AheadLitsWithin(d, x, y, t, mv, k - 1);
      Layout(d);
    }
  }

  lemma InitWithin(I: Instance)
    requires Valid(I)
    ensures AllWithin(InitClauses(I), NumVars(I.d))
  {
    Layout(I.d);
    BoxInitsWithin(I.d, I.boxes, I.d.b);
    AllWithinConcat([[VarPlayer(I.d, I.start.x, I.start.y, 0)]], BoxInits(I.d, I.boxes, I.d.b), NumVars(I.d));
  }

  lemma WallStepWithin(d: Dims, w: Cell, t: int)
    requires InGrid(d, w) && 0 <= t < d.t
    ensures AllWithin(WallStep(d, w, t), NumVars(d))
  {
    Layout(d);
    WallBoxesWithin(d, w, t, d.b);
    AllWithinConcat([[-VarPlayer(d, w.x, w.y, t)]], WallBoxes(d, w, t, d.b), NumVars(d));
  }

  lemma MoveStepWithin(d: Dims, x: int, y: int, mv: int, t: int)
    requires InGrid(d, Cell(x, y)) && 0 <= mv < 4 && 1 <= t < d.t
    ensures AllWithin(MoveStep(d, x, y, mv, t), NumVars(d))
  {
    Layout(d);
    MoveFrameWithin(d, x, y, mv, t, d.b);
    AllWithinConcat(MoveFrame(d, x, y, mv, t, d.b), [MoveTarget(d, x, y, mv, t)], NumVars(d));
  }

  lemma PushKeepWithin(d: Dims, x: int, y: int, t: int, mv: int, b: int, px: int, py: int)
    requires InGrid(d, Cell(x, y)) && 1 <= t < d.t && 0 <= mv < 4 && 1 <= b <= d.b
    requires InGrid(d, Cell(px, py))
    ensures AllWithin(PushKeep(d, x, y, t, mv, b, px, py), NumVars(d))
  {
    Layout(d);
  }

  lemma PushBoxWithin(d: Dims, x: int, y: int, t: int, mv: int, b: int)
    requires InGrid(d, Cell(x, y)) && 1 <= t < d.t && 0 <= mv < 4 && 1 <= b <= d.b
    requires InGrid(d, Neighbour(Cell(x, y), mv)) && InGrid(d, Neighbour(Neighbour(Cell(x, y), mv), mv))
    ensures AllWithin(PushBox(d, x, y, t, mv, b), NumVars(d))
  {
    Layout(d);
    var a := Neighbour(Cell(x, y), mv);
    var z := Neighbour(a, mv);
    PushKeepRowsWithin(d, x, y, t, mv, b, d.n);
    AllWithinConcat([[-VarMove(d, mv + 5, t), -VarPlayer(d, x, y, t - 1), -VarBox(d, b, a.x, a.y, t - 1), VarPlayer(d, a.x, a.y, t)],
                     [-VarMove(d, mv + 5, t), -VarPlayer(d, x, y, t - 1), -VarBox(d, b, a.x, a.y, t - 1), VarBox(d, b, z.x, z.y, t)]],
                    PushKeepRows(d, x, y, t, mv, b, d.n), NumVars(d));
  }

  lemma PushStepWithin(d: Dims, x: int, y: int, t: int, mv: int)
    requires InGrid(d, Cell(x, y)) && 1 <= t < d.t && 0 <= mv < 4
    ensures AllWithin(PushStep(d, x, y, t, mv), NumVars(d))
  {
    Layout(d);
    var a := Neighbour(Cell(x, y), mv);
    if InGrid(d, a) && InGrid(d, Neighbour(a, mv)) {
      PushBoxesWithin(d, x, y, t, mv, d.b);
      var lits := AheadLits(d, x, y, t, mv, d.b);
      AheadLitsWithin(d, x, y, t, mv, d.b);
      var clause := [-VarMove(d, mv + 5, t), -VarPlayer(d, x, y, t - 1)] + lits;
      assert forall j :: 2 <= j < |clause| ==> clause[j] == lits[j - 2];
      AllWithinConcat(PushBoxes(d, x, y, t, mv, d.b), [AheadClause(d, x, y, t, mv)], NumVars(d));
    }
  }

  lemma OverlapStepWithin(d: Dims, x: int, y: int, b: int, t: int)
    requires InGrid(d, Cell(x, y)) && 1 <= b <= d.b && 0 <= t < d.t
    ensures AllWithin(OverlapStep(d, x, y, b, t), NumVars(d))
  {
    Layout(d);
    OverlapPairsWithin(d, x, y, b, t, d.b);
    AllWithinConcat([[-VarPlayer(d, x, y, t), -VarBox(d, b, x, y, t)]], OverlapPairs(d, x, y, b, t, d.b), NumVars(d));
  }

  lemma ActionStepWithin(d: Dims, t: int)
    requires 0 <= t < d.t
    ensures AllWithin(ActionStep(d, t), NumVars(d))
  {
    Layout(d);
    var lits := ActionLits(d, t);
    assert ClauseWithin(lits, NumVars(d));
    AtMostOneWithin(lits, NumVars(d));
    AllWithinConcat(AtMostOne(lits), [lits], NumVars(d));
  }

  lemma UniqueStepWithin(d: Dims, t: int)
    requires 0 <= t < d.t
    ensures AllWithin(UniqueStep(d, t), NumVars(d))
  {
    PlayerLitsWithin(d, t);
    ExactlyOneWithin(PlayerLits(d, t), NumVars(d));
    UniqueBoxesWithin(d, t, d.b);
    AllWithinConcat(ExactlyOne(PlayerLits(d, t)), UniqueBoxes(d, t, d.b), NumVars(d));
  }

  lemma StayCellWithin(d: Dims, t: int, x: int, y: int)
    requires 1 <= t < d.t && InGrid(d, Cell(x, y))
    ensures AllWithin(StayCell(d, t, x, y), NumVars(d))
  {
    Layout(d);
    StayBoxesWithin(d, t, x, y, d.b);
    AllWithinConcat(StayBoxes(d, t, x, y, d.b), [[-VarMove(d, 9, t), -VarPlayer(d, x, y, t - 1), VarPlayer(d, x, y, t)]], NumVars(d));
  }

  lemma {:induction false} BoxInitsWithin(d: Dims, boxes: seq<Cell>, k: nat)
    requires d.t >= 1 && |boxes| == d.b && k <= d.b && (forall c :: 0 <= c < |boxes| ==> InGrid(d, boxes[c]))
    ensures AllWithin(BoxInits(d, boxes, k), NumVars(d))
  {
    if k > 0 {
      BoxInitsWithin(d, boxes, k - 1);
      Layout(d);
      AllWithinConcat(BoxInits(d, boxes, k - 1), [[VarBox(d, k, boxes[k - 1].x, boxes[k - 1].y, 0)]], NumVars(d));
    }
  }

  lemma {:induction false} GoalColsWithin(d: Dims, goals: seq<Cell>, x: int, y: nat)
    requires 0 <= x < d.n && y <= d.m
    ensures AllWithin(GoalCols(d, goals, x, y), NumVars(d))
  {
    if y > 0 {
      GoalColsWithin(d, goals, x, y - 1);
      Layout(d);
      AllWithinConcat(GoalCols(d, goals, x, y - 1), [GoalUnit(d, goals, x, y - 1)], NumVars(d));
    }
  }

  lemma GoalRowsWithin(d: Dims, goals: seq<Cell>, x: nat)
    requires x <= d.n
    ensures AllWithin(GoalRows(d, goals, x), NumVars(d))
  {
    forall i: nat | i < x ensures AllWithin(GoalColsAt(d, goals)(i), NumVars(d)) {
      GoalColsWithin(d, goals, i, d.m);
    }
    GatherWithin(GoalColsAt(d, goals), x, NumVars(d));
  }

  lemma {:induction false} WallBoxesWithin(d: Dims, w: Cell, t: int, k: nat)
    requires InGrid(d, w) && 0 <= t < d.t && k <= d.b
    ensures AllWithin(WallBoxes(d, w, t, k), NumVars(d))
  {
    if k > 0 {
      WallBoxesWithin(d, w, t, k - 1);
      Layout(d);
      AllWithinConcat(WallBoxes(d, w, t, k - 1), [[-VarBox(d, k, w.x, w.y, t)]], NumVars(d));
    }
  }

  lemma WallTimesWithin(d: Dims, w: Cell, t: nat)
    requires InGrid(d, w) && t <= d.t
    ensures AllWithin(WallTimes(d, w, t), NumVars(d))
  {
    forall s: nat | s < t ensures AllWithin(WallStepAt(d, w)(s), NumVars(d)) {
      WallStepWithin(d, w, s);
    }
    GatherWithin(WallStepAt(d, w), t, NumVars(d));
  }

  lemma WallListWithin(d: Dims, walls: seq<Cell>, k: nat)
    requires k <= |walls| && (forall c :: 0 <= c < |walls| ==> InGrid(d, walls[c]))
    ensures AllWithin(WallList(d, walls, k), NumVars(d))
  {
    forall i: nat | i < k ensures AllWithin(WallTimesAt(d, walls)(i), NumVars(d)) {
      WallTimesWithin(d, walls[i], d.t);
    }
    GatherWithin(WallTimesAt(d, walls), k, NumVars(d));
  }

  lemma {:induction false} MoveFrameWithin(d: Dims, x: int, y: int, mv: int, t: int, k: nat)
    requires InGrid(d, Cell(x, y)) && 0 <= mv < 4 && 1 <= t < d.t && k <= d.b
    ensures AllWithin(MoveFrame(d, x, y, mv, t, k), NumVars(d))
  {
    if k > 0 {
      MoveFrameWithin(d, x, y, mv, t, k - 1);
      Layout(d);
      AllWithinConcat(MoveFrame(d, x, y, mv, t, k - 1), [[-VarMove(d, mv + 1, t), -VarBox(d, k, x, y, t - 1), VarBox(d, k, x, y, t)]], NumVars(d));
    }
  }

  lemma MoveTimesWithin(d: Dims, x: int, y: int, mv: int, t: nat)
    requires InGrid(d, Cell(x, y)) && 0 <= mv < 4 && 1 <= t <= d.t
    ensures AllWithin(MoveTimes(d, x, y, mv, t), NumVars(d))
  {
    forall s: nat | s < t ensures AllWithin(MoveStepAt(d, x, y, mv)(s), NumVars(d)) {
      if 1 <= s {
        MoveStepWithin(d, x, y, mv, s);
      }
    }
    GatherWithin(MoveStepAt(d, x, y, mv), t, NumVars(d));
  }

  lemma MoveDirsWithin(d: Dims, x: int, y: int, k: nat)
    requires InGrid(d, Cell(x, y)) && k <= Directions && d.t >= 1
    ensures AllWithin(MoveDirs(d, x, y, k), NumVars(d))
  {
    forall mv: nat | mv < k ensures AllWithin(MoveTimesAt(d, x, y)(mv), NumVars(d)) {
      MoveTimesWithin(d, x, y, mv, d.t);
    }
    GatherWithin(MoveTimesAt(d, x, y), k, NumVars(d));
  }

  lemma MoveColsWithin(d: Dims, x: int, y: nat)
    requires 0 <= x < d.n && y <= d.m && d.t >= 1
    ensures AllWithin(MoveCols(d, x, y), NumVars(d))
  {
    forall j: nat | j < y ensures AllWithin(MoveDirsAt(d, x)(j), NumVars(d)) {
      MoveDirsWithin(d, x, j, Directions);
    }
    GatherWithin(MoveDirsAt(d, x), y, NumVars(d));
  }

  lemma MoveRowsWithin(d: Dims, x: nat)
    requires x <= d.n && d.t >= 1
    ensures AllWithin(MoveRows(d, x), NumVars(d))
  {
    forall i: nat | i < x ensures AllWithin(MoveColsAt(d)(i), NumVars(d)) {
      MoveColsWithin(d, i, d.m);
    }
    GatherWithin(MoveColsAt(d), x, NumVars(d));
  }

  lemma PushKeepColsWithin(d: Dims, x: int, y: int, t: int, mv: int, b: int, px: int, py: nat)
    requires InGrid(d, Cell(x, y)) && 1 <= t < d.t && 0 <= mv < 4 && 1 <= b <= d.b && 0 <= px < d.n && py <= d.m
    ensures AllWithin(PushKeepCols(d, x, y, t, mv, b, px, py), NumVars(d))
  {
    forall j: nat | j < py ensures AllWithin(PushKeepAt(d, x, y, t, mv, b, px)(j), NumVars(d)) {
      PushKeepWithin(d, x, y, t, mv, b, px, j);
    }
    GatherWithin(PushKeepAt(d, x, y, t, mv, b, px), py, NumVars(d));
  }

  lemma PushKeepRowsWithin(d: Dims, x: int, y: int, t: int, mv: int, b: int, px: nat)
    requires InGrid(d, Cell(x, y)) && 1 <= t < d.t && 0 <= mv < 4 && 1 <= b <= d.b && px <= d.n
    ensures AllWithin(PushKeepRows(d, x, y, t, mv, b, px), NumVars(d))
  {
    forall i: nat | i < px ensures AllWithin(PushKeepColsAt(d, x, y, t, mv, b)(i), NumVars(d)) {
      PushKeepColsWithin(d, x, y, t, mv, b, i, d.m);
    }
    GatherWithin(PushKeepColsAt(d, x, y, t, mv, b), px, NumVars(d));
  }

  lemma PushBoxesWithin(d: Dims, x: int, y: int, t: int, mv: int, k: nat)
    requires InGrid(d, Cell(x, y)) && 1 <= t < d.t && 0 <= mv < 4 && k <= d.b && InGrid(d, Neighbour(Cell(x, y), mv)) && InGrid(d, Neighbour(Neighbour(Cell(x, y), mv), mv))
    ensures AllWithin(PushBoxes(d, x, y, t, mv, k), NumVars(d))
  {
    forall j: nat | j < k ensures AllWithin(PushBoxAt(d, x, y, t, mv)(j), NumVars(d)) {
      PushBoxWithin(d, x, y, t, mv, j + 1);
    }
    GatherWithin(PushBoxAt(d, x, y, t, mv), k, NumVars(d));
  }

  lemma PushDirsWithin(d: Dims, x: int, y: int, t: int, k: nat)
    requires InGrid(d, Cell(x, y)) && 1 <= t < d.t && k <= Directions
    ensures AllWithin(PushDirs(d, x, y, t, k), NumVars(d))
  {
    forall mv: nat | mv < k ensures AllWithin(PushStepAt(d, x, y, t)(mv), NumVars(d)) {
      PushStepWithin(d, x, y, t, mv);
    }
    GatherWithin(PushStepAt(d, x, y, t), k, NumVars(d));
  }

  lemma PushTimesWithin(d: Dims, x: int, y: int, t: nat)
    requires InGrid(d, Cell(x, y)) && 1 <= t <= d.t
    ensures AllWithin(PushTimes(d, x, y, t), NumVars(d))
  {
    forall s: nat | s < t ensures AllWithin(PushDirsAt(d, x, y)(s), NumVars(d)) {
      if 1 <= s {
        PushDirsWithin(d, x, y, s, Directions);
      }
    }
    GatherWithin(PushDirsAt(d, x, y), t, NumVars(d));
  }

  lemma PushColsWithin(d: Dims, x: int, y: nat)
    requires 0 <= x < d.n && y <= d.m && d.t >= 1
    ensures AllWithin(PushCols(d, x, y), NumVars(d))
  {
    forall j: nat | j < y ensures AllWithin(PushTimesAt(d, x)(j), NumVars(d)) {
      PushTimesWithin(d, x, j, d.t);
    }
    GatherWithin(PushTimesAt(d, x), y, NumVars(d));
  }

  lemma PushRowsWithin(d: Dims, x: nat)
    requires x <= d.n && d.t >= 1
    ensures AllWithin(PushRows(d, x), NumVars(d))
  {
    forall i: nat | i < x ensures AllWithin(PushColsAt(d)(i), NumVars(d)) {
      PushColsWithin(d, i, d.m);
    }
    GatherWithin(PushColsAt(d), x, NumVars(d));
  }

  lemma {:induction false} OverlapPairsWithin(d: Dims, x: int, y: int, b: int, t: int, k: nat)
    requires InGrid(d, Cell(x, y)) && 1 <= b <= d.b && 0 <= t < d.t && k <= d.b
    ensures AllWithin(OverlapPairs(d, x, y, b, t, k), NumVars(d))
  {
    if k > b {
      OverlapPairsWithin(d, x, y, b, t, k - 1);
      Layout(d);
      AllWithinConcat(OverlapPairs(d, x, y, b, t, k - 1), [[-VarBox(d, b, x, y, t), -VarBox(d, k, x, y, t)]], NumVars(d));
    }
  }

  lemma OverlapTimesWithin(d: Dims, x: int, y: int, b: int, t: nat)
    requires InGrid(d, Cell(x, y)) && 1 <= b <= d.b && t <= d.t
    ensures AllWithin(OverlapTimes(d, x, y, b, t), NumVars(d))
  {
    forall s: nat | s < t ensures AllWithin(OverlapStepAt(d, x, y, b)(s), NumVars(d)) {
      OverlapStepWithin(d, x, y, b, s);
    }
    GatherWithin(OverlapStepAt(d, x, y, b), t, NumVars(d));
  }

  lemma OverlapBoxesWithin(d: Dims, x: int, y: int, k: nat)
    requires InGrid(d, Cell(x, y)) && k <= d.b
    ensures AllWithin(OverlapBoxes(d, x, y, k), NumVars(d))
  {
    forall j: nat | j < k ensures AllWithin(OverlapTimesAt(d, x, y)(j), NumVars(d)) {
      var e := j + 1;
      OverlapTimesWithin(d, x, y, e, d.t);
      assert OverlapTimesAt(d, x, y)(j) == OverlapTimes(d, x, y, e, d.t);
    }
    GatherWithin(OverlapTimesAt(d, x, y), k, NumVars(d));
  }

  lemma OverlapColsWithin(d: Dims, x: int, y: nat)
    requires 0 <= x < d.n && y <= d.m
    ensures AllWithin(OverlapCols(d, x, y), NumVars(d))
  {
    forall j: nat | j < y ensures AllWithin(OverlapBoxesAt(d, x)(j), NumVars(d)) {
      OverlapBoxesWithin(d, x, j, d.b);
    }
    GatherWithin(OverlapBoxesAt(d, x), y, NumVars(d));
  }

  lemma OverlapRowsWithin(d: Dims, x: nat)
    requires x <= d.n
    ensures AllWithin(OverlapRows(d, x), NumVars(d))
  {
    forall i: nat | i < x ensures AllWithin(OverlapColsAt(d)(i), NumVars(d)) {
      OverlapColsWithin(d, i, d.m);
    }
    GatherWithin(OverlapColsAt(d), x, NumVars(d));
  }

  lemma {:induction false} FinalBoxesWithin(d: Dims, x: int, y: int, k: nat)
    requires InGrid(d, Cell(x, y)) && k <= d.b && d.t >= 1
    ensures AllWithin(FinalBoxes(d, x, y, k), NumVars(d))
  {
    if k > 0 {
      FinalBoxesWithin(d, x, y, k - 1);
      Layout(d);
      AllWithinConcat(FinalBoxes(d, x, y, k - 1), [[-VarBox(d, k, x, y, d.t - 1), VarGoal(d, x, y)]], NumVars(d));
    }
  }

  lemma FinalColsWithin(d: Dims, x: int, y: nat)
    requires 0 <= x < d.n && y <= d.m && d.t >= 1
    ensures AllWithin(FinalCols(d, x, y), NumVars(d))
  {
    forall j: nat | j < y ensures AllWithin(FinalBoxesAt(d, x)(j), NumVars(d)) {
      FinalBoxesWithin(d, x, j, d.b);
    }
    GatherWithin(FinalBoxesAt(d, x), y, NumVars(d));
  }

  lemma FinalRowsWithin(d: Dims, x: nat)
    requires x <= d.n && d.t >= 1
    ensures AllWithin(FinalRows(d, x), NumVars(d))
  {
    forall i: nat | i < x ensures AllWithin(FinalColsAt(d)(i), NumVars(d)) {
      FinalColsWithin(d, i, d.m);
    }
    GatherWithin(FinalColsAt(d), x, NumVars(d));
  }

  lemma ActionTimesWithin(d: Dims, t: nat)
    requires t <= d.t
    ensures AllWithin(ActionTimes(d, t), NumVars(d))
  {
    forall s: nat | s < t ensures AllWithin(ActionStepAt(d)(s), NumVars(d)) {
      ActionStepWithin(d, s);
    }
    GatherWithin(ActionStepAt(d), t, NumVars(d));
  }

  lemma UniqueBoxesWithin(d: Dims, t: int, k: nat)
    requires 0 <= t < d.t && k <= d.b
    ensures AllWithin(UniqueBoxes(d, t, k), NumVars(d))
  {
    forall j: nat | j < k ensures AllWithin(UniqueBoxAt(d, t)(j), NumVars(d)) {
      BoxLitsWithin(d, j + 1, t);
      ExactlyOneWithin(BoxLits(d, j + 1, t), NumVars(d));
    }
    GatherWithin(UniqueBoxAt(d, t), k, NumVars(d));
  }

  lemma UniqueTimesWithin(d: Dims, t: nat)
    requires t <= d.t
    ensures AllWithin(UniqueTimes(d, t), NumVars(d))
  {
    forall s: nat | s < t ensures AllWithin(UniqueStepAt(d)(s), NumVars(d)) {
      UniqueStepWithin(d, s);
    }
    GatherWithin(UniqueStepAt(d), t, NumVars(d));
  }

  lemma {:induction false} StayBoxesWithin(d: Dims, t: int, x: int, y: int, k: nat)
    requires 1 <= t < d.t && InGrid(d, Cell(x, y)) && k <= d.b
    ensures AllWithin(StayBoxes(d, t, x, y, k), NumVars(d))
  {
    if k > 0 {
      StayBoxesWithin(d, t, x, y, k - 1);
      Layout(d);
      AllWithinConcat(StayBoxes(d, t, x, y, k - 1), [[-VarMove(d, 9, t), -VarBox(d, k, x, y, t - 1), VarBox(d, k, x, y, t)]], NumVars(d));
    }
  }

  lemma StayColsWithin(d: Dims, t: int, x: int, y: nat)
    requires 1 <= t < d.t && 0 <= x < d.n && y <= d.m
    ensures AllWithin(StayCols(d, t, x, y), NumVars(d))
  {
    forall j: nat | j < y ensures AllWithin(StayCellAt(d, t, x)(j), NumVars(d)) {
      StayCellWithin(d, t, x, j);
    }
    GatherWithin(StayCellAt(d, t, x), y, NumVars(d));
  }

  lemma StayRowsWithin(d: Dims, t: int, x: nat)
    requires 1 <= t < d.t && x <= d.n
    ensures AllWithin(StayRows(d, t, x), NumVars(d))
  {
    forall i: nat | i < x ensures AllWithin(StayColsAt(d, t)(i), NumVars(d)) {
      StayColsWithin(d, t, i, d.m);
    }
    GatherWithin(StayColsAt(d, t), x, NumVars(d));
  }

  lemma StayTimesWithin(d: Dims, t: nat)
    requires 1 <= t <= d.t
    ensures AllWithin(StayTimes(d, t), NumVars(d))
  {
    forall s: nat | s < t ensures AllWithin(StayRowsAt(d)(s), NumVars(d)) {
      if 1 <= s {
        StayRowsWithin(d, s, d.n);
      }
    }
    GatherWithin(StayRowsAt(d), t, NumVars(d));
  }

  // ---------------- the whole formula ----------------

  /** A model of the formula is a model of each of its eleven families. */
  lemma ClausesSat(I: Instance, m: seq<int>)
    requires Valid(I) && Satisfies(m, Clauses(I))
    ensures Satisfies(m, InitClauses(I)) && Satisfies(m, GoalRows(I.d, I.goals, I.d.n))
    ensures Satisfies(m, WallList(I.d, I.walls, |I.walls|)) && ClauseTrue(m, [VarMove(I.d, 9, 0)])
    ensures Satisfies(m, MoveRows(I.d, I.d.n)) && Satisfies(m, PushRows(I.d, I.d.n))
    ensures Satisfies(m, OverlapRows(I.d, I.d.n)) && Satisfies(m, FinalRows(I.d, I.d.n))
    ensures Satisfies(m, ActionTimes(I.d, I.d.t)) && Satisfies(m, UniqueTimes(I.d, I.d.t))
    ensures Satisfies(m, StayTimes(I.d, I.d.t))
  {
    var d := I.d;
    var f0 := InitClauses(I);
    var f1 := f0 + GoalRows(d, I.goals, d.n);
    var f2 := f1 + WallList(d, I.walls, |I.walls|);
    var f3 := f2 + [[VarMove(d, 9, 0)]];
    var f4 := f3 + MoveRows(d, d.n);
    var f5 := f4 + PushRows(d, d.n);
    var f6 := f5 + OverlapRows(d, d.n);
    var f7 := f6 + FinalRows(d, d.n);
    var f8 := f7 + ActionTimes(d, d.t);
    var f9 := f8 + UniqueTimes(d, d.t);
    SatisfiesConcat(m, f9, StayTimes(d, d.t));
    SatisfiesConcat(m, f8, UniqueTimes(d, d.t));
    SatisfiesConcat(m, f7, ActionTimes(d, d.t));
    SatisfiesConcat(m, f6, FinalRows(d, d.n));
    SatisfiesConcat(m, f5, OverlapRows(d, d.n));
    SatisfiesConcat(m, f4, PushRows(d, d.n));
    SatisfiesConcat(m, f3, MoveRows(d, d.n));
    SatisfiesConcat(m, f2, [[VarMove(d, 9, 0)]]);
    SatisfiesConcat(m, f1, WallList(d, I.walls, |I.walls|));
    SatisfiesConcat(m, f0, GoalRows(d, I.goals, d.n));
  }

  /** Literal bounds: every literal of every clause `encode` returns is
      nonzero and names a variable of the numbering, 1..NumVars. */
  lemma ClausesWithin(I: Instance)
    requires Valid(I)
    ensures AllWithin(Clauses(I), NumVars(I.d))
  {
    var d := I.d;
    var B := NumVars(d);
    Layout(d);
    InitWithin(I);
    GoalRowsWithin(d, I.goals, d.n);
    WallListWithin(d, I.walls, |I.walls|);
    MoveRowsWithin(d, d.n);
    PushRowsWithin(d, d.n);
    OverlapRowsWithin(d, d.n);
    FinalRowsWithin(d, d.n);
    ActionTimesWithin(d, d.t);
    UniqueTimesWithin(d, d.t);
    StayTimesWithin(d, d.t);
    var f0 := InitClauses(I);
    var f1 := f0 + GoalRows(d, I.goals, d.n);
    var f2 := f1 + WallList(d, I.walls, |I.walls|);
    var f3 := f2 + [[VarMove(d, 9, 0)]];
    var f4 := f3 + MoveRows(d, d.n);
    var f5 := f4 + PushRows(d, d.n);
    var f6 := f5 + OverlapRows(d, d.n);
    var f7 := f6 + FinalRows(d, d.n);
    var f8 := f7 + ActionTimes(d, d.t);
    var f9 := f8 + UniqueTimes(d, d.t);
    AllWithinJoin(f0, GoalRows(d, I.goals, d.n), B);
    AllWithinJoin(f1, WallList(d, I.walls, |I.walls|), B);
    AllWithinJoin(f2, [[VarMove(d, 9, 0)]], B);
    AllWithinJoin(f3, MoveRows(d, d.n), B);
    AllWithinJoin(f4, PushRows(d, d.n), B);
    AllWithinJoin(f5, OverlapRows(d, d.n), B);
    AllWithinJoin(f6, FinalRows(d, d.n), B);
    AllWithinJoin(f7, ActionTimes(d, d.t), B);
    AllWithinJoin(f8, UniqueTimes(d, d.t), B);
    AllWithinJoin(f9, StayTimes(d, d.t), B);
  }
}
