/** What a model of the Sokoban formula says about the plan it describes:
    each family of `encode` read back as a rule of the game, in terms of
    "the player is at c at time t", "box b is at c at time t" and "action a
    is taken at time t". Each rule is first proved from its own family
    (the "...Facts" lemmas) and then for every model of Clauses(I). */
module SokobanRules {
  import opened Cnf
  import opened SokobanVars
  import opened SokobanClauses
  import opened SokobanFamilies

  predicate HasPlayer(m: seq<int>, d: Dims, c: Cell, t: int)
    requires InGrid(d, c) && 0 <= t < d.t
  {
    ModelTrue(m, VarPlayer(d, c.x, c.y, t))
  }

  predicate HasBox(m: seq<int>, d: Dims, b: int, c: Cell, t: int)
    requires 1 <= b <= d.b && InGrid(d, c) && 0 <= t < d.t
  {
    ModelTrue(m, VarBox(d, b, c.x, c.y, t))
  }

  /** Some box is at c at time t. */
  predicate SomeBox(m: seq<int>, d: Dims, c: Cell, t: int)
    requires InGrid(d, c) && 0 <= t < d.t
  {
    exists b :: 1 <= b <= d.b && HasBox(m, d, b, c, t)
  }

  /** Action a at time t: 1..4 move up, right, down, left; 5..8 push in
      those directions; 9 stay. */
  predicate Does(m: seq<int>, d: Dims, a: int, t: int)
    requires 1 <= a <= 9 && 0 <= t < d.t
  {
    ModelTrue(m, VarMove(d, a, t))
  }

  predicate IsGoal(m: seq<int>, d: Dims, c: Cell)
    requires InGrid(d, c)
  {
    ModelTrue(m, VarGoal(d, c.x, c.y))
  }

  /** The start cell of box b (boxes are numbered from 1). */
  function BoxStart(I: Instance, b: int): Cell
    requires 1 <= b <= |I.boxes|
  {
    I.boxes[b - 1]
  }

  /** The cells a push from c in direction mv involves: the one ahead, and the one beyond it. */
  function Ahead(c: Cell, mv: int): Cell
  {
    Neighbour(c, mv)
  }

  function Beyond(c: Cell, mv: int): Cell
  {
    Neighbour(Neighbour(c, mv), mv)
  }

  // ---------------- initial state ----------------

  lemma InitFacts(m: seq<int>, I: Instance)
    requires Valid(I) && Satisfies(m, InitClauses(I))
    ensures HasPlayer(m, I.d, I.start, 0)
    ensures forall b :: 1 <= b <= I.d.b ==> HasBox(m, I.d, b, BoxStart(I, b), 0)
  {
    Layout(I.d);
    var d := I.d;
    var p := [[VarPlayer(d, I.start.x, I.start.y, 0)]];
    SatisfiesConcat(m, p, BoxInits(d, I.boxes, d.b));
    SatisfiesUnit(m, p[0]);
    UnitForces(m, VarPlayer(d, I.start.x, I.start.y, 0));
    forall b | 1 <= b <= d.b ensures HasBox(m, d, b, BoxStart(I, b), 0) {
      var i := b - 1;
      BoxInitsPart(m, d, I.boxes, d.b, i);
      UnitForces(m, VarBox(d, i + 1, I.boxes[i].x, I.boxes[i].y, 0));
    }
  }

  /** At time 0 the player and every box stand on their start cells, and the
      action taken is stay. */
  lemma StartRule(I: Instance, m: seq<int>)
    requires Valid(I) && Satisfies(m, Clauses(I))
    ensures HasPlayer(m, I.d, I.start, 0)
    ensures forall b :: 1 <= b <= I.d.b ==> HasBox(m, I.d, b, BoxStart(I, b), 0)
    ensures Does(m, I.d, 9, 0)
  {
    ClausesSat(I, m);
    InitFacts(m, I);
    UnitForces(m, VarMove(I.d, 9, 0));
  }

  // ---------------- goals and walls ----------------

  lemma GoalHolds(I: Instance, m: seq<int>, c: Cell)
    requires Valid(I) && Satisfies(m, Clauses(I)) && InGrid(I.d, c)
    ensures ClauseTrue(m, GoalUnit(I.d, I.goals, c.x, c.y))
  {
    ClausesSat(I, m);
    GoalRowsPart(m, I.d, I.goals, I.d.n, c.x);
    GoalColsPart(m, I.d, I.goals, c.x, I.d.m, c.y);
  }

  lemma GoalFacts(m: seq<int>, d: Dims, goals: seq<Cell>, c: Cell)
    requires InGrid(d, c) && ClauseTrue(m, GoalUnit(d, goals, c.x, c.y))
    ensures c in goals ==> IsGoal(m, d, c)
    ensures IsGoal(m, d, c) ==> c in goals
  {
    if c in goals {
      UnitForces(m, VarGoal(d, c.x, c.y));
    } else {
      UnitForbids(m, VarGoal(d, c.x, c.y));
    }
  }

  /** The goal flag of a cell is true exactly for the listed goal cells. */
  lemma GoalRule(I: Instance, m: seq<int>, c: Cell)
    requires Valid(I) && Satisfies(m, Clauses(I)) && InGrid(I.d, c)
    ensures c in I.goals ==> IsGoal(m, I.d, c)
    ensures IsGoal(m, I.d, c) ==> c in I.goals
  {
    GoalHolds(I, m, c);
    GoalFacts(m, I.d, I.goals, c);
  }

  lemma WallFacts(m: seq<int>, d: Dims, w: Cell, t: int)
    requires InGrid(d, w) && 0 <= t < d.t && Satisfies(m, WallStep(d, w, t))
    ensures !HasPlayer(m, d, w, t)
    ensures forall b :: 1 <= b <= d.b ==> !HasBox(m, d, b, w, t)
  {
    Layout(d);
    SatisfiesConcat(m, [[-VarPlayer(d, w.x, w.y, t)]], WallBoxes(d, w, t, d.b));
    SatisfiesUnit(m, [-VarPlayer(d, w.x, w.y, t)]);
    UnitForbids(m, VarPlayer(d, w.x, w.y, t));
    forall b | 1 <= b <= d.b ensures !HasBox(m, d, b, w, t) {
      WallBoxesPart(m, d, w, t, d.b, b);
      UnitForbids(m, VarBox(d, b, w.x, w.y, t));
    }
  }

  lemma WallHolds(I: Instance, m: seq<int>, i: int, t: int)
    requires Valid(I) && Satisfies(m, Clauses(I))
    requires 0 <= i < |I.walls| && 0 <= t < I.d.t
    ensures Satisfies(m, WallStep(I.d, I.walls[i], t))
  {
    ClausesSat(I, m);
    WallListPart(m, I.d, I.walls, |I.walls|, i);
    WallTimesPart(m, I.d, I.walls[i], I.d.t, t);
  }

  /** Neither the player nor any box is ever on a wall. */
  lemma WallRule(I: Instance, m: seq<int>, i: int, t: int)
    requires Valid(I) && Satisfies(m, Clauses(I))
    requires 0 <= i < |I.walls| && 0 <= t < I.d.t
    ensures !HasPlayer(m, I.d, I.walls[i], t)
    ensures forall b :: 1 <= b <= I.d.b ==> !HasBox(m, I.d, b, I.walls[i], t)
  {
    WallHolds(I, m, i, t);
    WallFacts(m, I.d, I.walls[i], t);
  }

  // ---------------- plain moves ----------------

  lemma MoveStepHolds(I: Instance, m: seq<int>, c: Cell, mv: int, t: int)
    requires Valid(I) && Satisfies(m, Clauses(I))
    requires InGrid(I.d, c) && 0 <= mv < 4 && 1 <= t < I.d.t
    ensures Satisfies(m, MoveStep(I.d, c.x, c.y, mv, t))
  {
    var d := I.d;
    ClausesSat(I, m);
    MoveRowsPart(m, d, d.n, c.x);
    MoveColsPart(m, d, c.x, d.m, c.y);
    MoveDirsPart(m, d, c.x, c.y, Directions, mv);
    MoveTimesPart(m, d, c.x, c.y, mv, d.t, t);
  }

  lemma MoveFacts(m: seq<int>, d: Dims, c: Cell, mv: int, t: int)
    requires InGrid(d, c) && 0 <= mv < 4 && 1 <= t < d.t
    requires Satisfies(m, MoveStep(d, c.x, c.y, mv, t))
    ensures !InGrid(d, Neighbour(c, mv)) ==> !(Does(m, d, mv + 1, t) && HasPlayer(m, d, c, t - 1))
    ensures InGrid(d, Neighbour(c, mv)) && Does(m, d, mv + 1, t) && HasPlayer(m, d, c, t - 1) ==>
      HasPlayer(m, d, Neighbour(c, mv), t)
  {
    Layout(d);
    var target := MoveTarget(d, c.x, c.y, mv, t);
    SatisfiesConcat(m, MoveFrame(d, c.x, c.y, mv, t, d.b), [target]);
    SatisfiesUnit(m, target);
    if !InGrid(d, Neighbour(c, mv)) {
      NotBoth(m, VarMove(d, mv + 1, t), VarPlayer(d, c.x, c.y, t - 1));
    } else if Does(m, d, mv + 1, t) && HasPlayer(m, d, c, t - 1) {
      Forces(m, target);
    }
  }

  /** Move mv + 1 (direction mv) is impossible when the neighbour is off the
      grid, and otherwise takes the player from c to the neighbour. */
  lemma MoveRule(I: Instance, m: seq<int>, c: Cell, mv: int, t: int)
    requires Valid(I) && Satisfies(m, Clauses(I))
    requires InGrid(I.d, c) && 0 <= mv < 4 && 1 <= t < I.d.t
    ensures !InGrid(I.d, Neighbour(c, mv)) ==> !(Does(m, I.d, mv + 1, t) && HasPlayer(m, I.d, c, t - 1))
    ensures InGrid(I.d, Neighbour(c, mv)) && Does(m, I.d, mv + 1, t) && HasPlayer(m, I.d, c, t - 1) ==>
      HasPlayer(m, I.d, Neighbour(c, mv), t)
  {
    MoveStepHolds(I, m, c, mv, t);
    MoveFacts(m, I.d, c, mv, t);
  }

  lemma MoveFrameFacts(m: seq<int>, d: Dims, c: Cell, mv: int, t: int, b: int)
    requires InGrid(d, c) && 0 <= mv < 4 && 1 <= t < d.t && 1 <= b <= d.b
    requires Satisfies(m, MoveStep(d, c.x, c.y, mv, t))
    ensures Does(m, d, mv + 1, t) && HasBox(m, d, b, c, t - 1) ==> HasBox(m, d, b, c, t)
  {
    Layout(d);
    SatisfiesConcat(m, MoveFrame(d, c.x, c.y, mv, t, d.b), [MoveTarget(d, c.x, c.y, mv, t)]);
    MoveFramePart(m, d, c.x, c.y, mv, t, d.b, b);
    var act, before, after := VarMove(d, mv + 1, t), VarBox(d, b, c.x, c.y, t - 1), VarBox(d, b, c.x, c.y, t);
    if ModelTrue(m, act) && ModelTrue(m, before) {
      Implies2(m, act, before, after);
    }
  }

  /** A plain move leaves every box where it was. */
  lemma MoveKeepsBox(I: Instance, m: seq<int>, c: Cell, mv: int, t: int, b: int)
    requires Valid(I) && Satisfies(m, Clauses(I))
    requires InGrid(I.d, c) && 0 <= mv < 4 && 1 <= t < I.d.t && 1 <= b <= I.d.b
    ensures Does(m, I.d, mv + 1, t) && HasBox(m, I.d, b, c, t - 1) ==> HasBox(m, I.d, b, c, t)
  {
    MoveStepHolds(I, m, c, mv, t);
    MoveFrameFacts(m, I.d, c, mv, t, b);
  }

  // ---------------- pushes ----------------

  lemma PushStepHolds(I: Instance, m: seq<int>, c: Cell, mv: int, t: int)
    requires Valid(I) && Satisfies(m, Clauses(I))
    requires InGrid(I.d, c) && 0 <= mv < 4 && 1 <= t < I.d.t
    ensures Satisfies(m, PushStep(I.d, c.x, c.y, t, mv))
  {
    var d := I.d;
    ClausesSat(I, m);
    PushRowsPart(m, d, d.n, c.x);
    PushColsPart(m, d, c.x, d.m, c.y);
    PushTimesPart(m, d, c.x, c.y, d.t, t);
    PushDirsPart(m, d, c.x, c.y, t, Directions, mv);
  }

  /** The literals of the "some box ahead" clause are the box variables of the cell ahead. */
  lemma {:induction false} AheadLitsAt(d: Dims, c: Cell, t: int, mv: int, k: nat, j: int)
    requires 1 <= t < d.t && 0 <= mv < 4 && k <= d.b
    requires InGrid(d, Ahead(c, mv)) && 0 <= j < k
    ensures AheadLits(d, c.x, c.y, t, mv, k)[j] == VarBox(d, j + 1, Ahead(c, mv).x, Ahead(c, mv).y, t - 1)
  {
    if j < k - 1 {
      AheadLitsAt(d, c, t, mv, k - 1, j);
    }
  }

  lemma AheadHolds(m: seq<int>, d: Dims, c: Cell, mv: int, t: int)
    requires InGrid(d, c) && 0 <= mv < 4 && 1 <= t < d.t
    requires InGrid(d, Ahead(c, mv)) && InGrid(d, Beyond(c, mv))
    requires Satisfies(m, PushStep(d, c.x, c.y, t, mv))
    ensures ClauseTrue(m, AheadClause(d, c.x, c.y, t, mv))
  {
    var ahead := AheadClause(d, c.x, c.y, t, mv);
    SatisfiesConcat(m, PushBoxes(d, c.x, c.y, t, mv, d.b), [ahead]);
    SatisfiesUnit(m, ahead);
  }

  lemma AheadFacts(m: seq<int>, d: Dims, c: Cell, mv: int, t: int)
    requires InGrid(d, c) && 0 <= mv < 4 && 1 <= t < d.t && InGrid(d, Ahead(c, mv))
    requires ClauseTrue(m, AheadClause(d, c.x, c.y, t, mv))
    ensures Does(m, d, mv + 5, t) && HasPlayer(m, d, c, t - 1) ==> SomeBox(m, d, Ahead(c, mv), t - 1)
  {
    Layout(d);
    var act, from := VarMove(d, mv + 5, t), VarPlayer(d, c.x, c.y, t - 1);
    var lits := AheadLits(d, c.x, c.y, t, mv, d.b);
    if ModelTrue(m, act) && ModelTrue(m, from) {
      ImpliesSome(m, act, from, lits);
      var i :| 0 <= i < |lits| && LitTrue(m, lits[i]);
      AheadLitsAt(d, c, t, mv, d.b, i);
      assert HasBox(m, d, i + 1, Ahead(c, mv), t - 1);
    }
  }

  lemma PushFacts(m: seq<int>, d: Dims, c: Cell, mv: int, t: int)
    requires InGrid(d, c) && 0 <= mv < 4 && 1 <= t < d.t
    requires Satisfies(m, PushStep(d, c.x, c.y, t, mv))
    ensures !(InGrid(d, Ahead(c, mv)) && InGrid(d, Beyond(c, mv))) ==>
      !(Does(m, d, mv + 5, t) && HasPlayer(m, d, c, t - 1))
    ensures (InGrid(d, Ahead(c, mv)) && InGrid(d, Beyond(c, mv)) && Does(m, d, mv + 5, t) && HasPlayer(m, d, c, t - 1)) ==>
      SomeBox(m, d, Ahead(c, mv), t - 1)
  {
    Layout(d);
    if !(InGrid(d, Ahead(c, mv)) && InGrid(d, Beyond(c, mv))) {
      SatisfiesUnit(m, [-VarMove(d, mv + 5, t), -VarPlayer(d, c.x, c.y, t - 1)]);
      NotBoth(m, VarMove(d, mv + 5, t), VarPlayer(d, c.x, c.y, t - 1));
    } else {
      AheadHolds(m, d, c, mv, t);
      AheadFacts(m, d, c, mv, t);
    }
  }

  /** Push mv + 5 is impossible unless the cells ahead and beyond are on the
      grid, and then needs some box in the cell ahead. */
  lemma PushRule(I: Instance, m: seq<int>, c: Cell, mv: int, t: int)
    requires Valid(I) && Satisfies(m, Clauses(I))
    requires InGrid(I.d, c) && 0 <= mv < 4 && 1 <= t < I.d.t
    ensures !(InGrid(I.d, Ahead(c, mv)) && InGrid(I.d, Beyond(c, mv))) ==>
      !(Does(m, I.d, mv + 5, t) && HasPlayer(m, I.d, c, t - 1))
    ensures (InGrid(I.d, Ahead(c, mv)) && InGrid(I.d, Beyond(c, mv)) && Does(m, I.d, mv + 5, t) && HasPlayer(m, I.d, c, t - 1)) ==>
      SomeBox(m, I.d, Ahead(c, mv), t - 1)
  {
    PushStepHolds(I, m, c, mv, t);
    PushFacts(m, I.d, c, mv, t);
  }

  lemma PushBoxHolds(I: Instance, m: seq<int>, c: Cell, mv: int, t: int, b: int)
    requires Valid(I) && Satisfies(m, Clauses(I))
    requires InGrid(I.d, c) && 0 <= mv < 4 && 1 <= t < I.d.t && 1 <= b <= I.d.b
    requires InGrid(I.d, Ahead(c, mv)) && InGrid(I.d, Beyond(c, mv))
    ensures Satisfies(m, PushBox(I.d, c.x, c.y, t, mv, b))
  {
    var d := I.d;
    PushStepHolds(I, m, c, mv, t);
    SatisfiesConcat(m, PushBoxes(d, c.x, c.y, t, mv, d.b), [AheadClause(d, c.x, c.y, t, mv)]);
    PushBoxesPart(m, d, c.x, c.y, t, mv, d.b, b);
  }

  lemma PushBoxFacts(m: seq<int>, d: Dims, c: Cell, mv: int, t: int, b: int)
    requires InGrid(d, c) && 0 <= mv < 4 && 1 <= t < d.t && 1 <= b <= d.b
    requires InGrid(d, Ahead(c, mv)) && InGrid(d, Beyond(c, mv))
    requires Satisfies(m, PushBox(d, c.x, c.y, t, mv, b))
    ensures (Does(m, d, mv + 5, t) && HasPlayer(m, d, c, t - 1) && HasBox(m, d, b, Ahead(c, mv), t - 1)) ==>
      HasPlayer(m, d, Ahead(c, mv), t) && HasBox(m, d, b, Beyond(c, mv), t)
  {
    Layout(d);
    var a := Ahead(c, mv);
    var z := Beyond(c, mv);
    var act, from, box := VarMove(d, mv + 5, t), VarPlayer(d, c.x, c.y, t - 1), VarBox(d, b, a.x, a.y, t - 1);
    var player, pushed := VarPlayer(d, a.x, a.y, t), VarBox(d, b, z.x, z.y, t);
    var all := PushBox(d, c.x, c.y, t, mv, b);
    assert all[0] == [-act, -from, -box, player] && all[1] == [-act, -from, -box, pushed];
    if ModelTrue(m, act) && ModelTrue(m, from) && ModelTrue(m, box) {
      Implies3(m, act, from, box, player);
      Implies3(m, act, from, box, pushed);
    }
  }

  /** A push with box b ahead moves the player into the cell ahead and box b
      into the cell beyond. */
  lemma PushMovesBox(I: Instance, m: seq<int>, c: Cell, mv: int, t: int, b: int)
    requires Valid(I) && Satisfies(m, Clauses(I))
    requires InGrid(I.d, c) && 0 <= mv < 4 && 1 <= t < I.d.t && 1 <= b <= I.d.b
    ensures (InGrid(I.d, Ahead(c, mv)) && InGrid(I.d, Beyond(c, mv)) &&
      Does(m, I.d, mv + 5, t) && HasPlayer(m, I.d, c, t - 1) && HasBox(m, I.d, b, Ahead(c, mv), t - 1)) ==>
      HasPlayer(m, I.d, Ahead(c, mv), t) && HasBox(m, I.d, b, Beyond(c, mv), t)
  {
    if InGrid(I.d, Ahead(c, mv)) && InGrid(I.d, Beyond(c, mv)) {
      PushBoxHolds(I, m, c, mv, t, b);
      PushBoxFacts(m, I.d, c, mv, t, b);
    }
  }

  lemma PushKeepFacts(m: seq<int>, d: Dims, c: Cell, mv: int, t: int, b: int, p: Cell)
    requires InGrid(d, c) && 0 <= mv < 4 && 1 <= t < d.t && 1 <= b <= d.b && InGrid(d, p)
    requires InGrid(d, Ahead(c, mv)) && InGrid(d, Beyond(c, mv))
    requires Satisfies(m, PushBox(d, c.x, c.y, t, mv, b))
    ensures (p != Ahead(c, mv) && Does(m, d, mv + 5, t) && HasPlayer(m, d, c, t - 1) && HasBox(m, d, b, p, t - 1)) ==>
      HasBox(m, d, b, p, t)
  {
    Layout(d);
    var all := PushBox(d, c.x, c.y, t, mv, b);
    var rows := PushKeepRows(d, c.x, c.y, t, mv, b, d.n);
    assert all == all[..2] + rows;
    SatisfiesConcat(m, all[..2], rows);
    PushKeepRowsPart(m, d, c.x, c.y, t, mv, b, d.n, p.x);
    PushKeepColsPart(m, d, c.x, c.y, t, mv, b, p.x, d.m, p.y);
    if p != Ahead(c, mv) {
      var act, from, before, after := VarMove(d, mv + 5, t), VarPlayer(d, c.x, c.y, t - 1), VarBox(d, b, p.x, p.y, t - 1), VarBox(d, b, p.x, p.y, t);
      SatisfiesUnit(m, [-act, -from, -before, after]);
      if ModelTrue(m, act) && ModelTrue(m, from) && ModelTrue(m, before) {
        Implies3(m, act, from, before, after);
      }
    }
  }

  /** During a push, box b stays put in every cell other than the one ahead. */
  lemma PushKeepsBox(I: Instance, m: seq<int>, c: Cell, mv: int, t: int, b: int, p: Cell)
    requires Valid(I) && Satisfies(m, Clauses(I))
    requires InGrid(I.d, c) && 0 <= mv < 4 && 1 <= t < I.d.t && 1 <= b <= I.d.b && InGrid(I.d, p)
    ensures (InGrid(I.d, Ahead(c, mv)) && InGrid(I.d, Beyond(c, mv)) && p != Ahead(c, mv) &&
      Does(m, I.d, mv + 5, t) && HasPlayer(m, I.d, c, t - 1) && HasBox(m, I.d, b, p, t - 1)) ==>
      HasBox(m, I.d, b, p, t)
  {
    if InGrid(I.d, Ahead(c, mv)) && InGrid(I.d, Beyond(c, mv)) {
      PushBoxHolds(I, m, c, mv, t, b);
      PushKeepFacts(m, I.d, c, mv, t, b, p);
    }
  }

  // ---------------- non-overlap and the goal condition ----------------

  lemma OverlapStepHolds(I: Instance, m: seq<int>, c: Cell, t: int, b: int)
    requires Valid(I) && Satisfies(m, Clauses(I))
    requires InGrid(I.d, c) && 0 <= t < I.d.t && 1 <= b <= I.d.b
    ensures Satisfies(m, OverlapStep(I.d, c.x, c.y, b, t))
  {
    var d := I.d;
    ClausesSat(I, m);
    OverlapRowsPart(m, d, d.n, c.x);
    OverlapColsPart(m, d, c.x, d.m, c.y);
    OverlapBoxesPart(m, d, c.x, c.y, d.b, b);
    OverlapTimesPart(m, d, c.x, c.y, b, d.t, t);
  }

  lemma OverlapFacts(m: seq<int>, d: Dims, c: Cell, t: int, b: int)
    requires InGrid(d, c) && 0 <= t < d.t && 1 <= b <= d.b
    requires Satisfies(m, OverlapStep(d, c.x, c.y, b, t))
    ensures !(HasPlayer(m, d, c, t) && HasBox(m, d, b, c, t))
    ensures forall b' :: b < b' <= d.b ==> !(HasBox(m, d, b, c, t) && HasBox(m, d, b', c, t))
  {
    Layout(d);
    var own := [-VarPlayer(d, c.x, c.y, t), -VarBox(d, b, c.x, c.y, t)];
    SatisfiesConcat(m, [own], OverlapPairs(d, c.x, c.y, b, t, d.b));
    SatisfiesUnit(m, own);
    NotBoth(m, VarPlayer(d, c.x, c.y, t), VarBox(d, b, c.x, c.y, t));
    forall b' | b < b' <= d.b ensures !(HasBox(m, d, b, c, t) && HasBox(m, d, b', c, t)) {
      OverlapPairsPart(m, d, c.x, c.y, b, t, d.b, b');
      NotBoth(m, VarBox(d, b, c.x, c.y, t), VarBox(d, b', c.x, c.y, t));
    }
  }

  /** The player never shares a cell with box b, and box b never shares one
      with a box numbered after it. */
  lemma OverlapRule(I: Instance, m: seq<int>, c: Cell, t: int, b: int)
    requires Valid(I) && Satisfies(m, Clauses(I))
    requires InGrid(I.d, c) && 0 <= t < I.d.t && 1 <= b <= I.d.b
    ensures !(HasPlayer(m, I.d, c, t) && HasBox(m, I.d, b, c, t))
    ensures forall b' :: b < b' <= I.d.b ==> !(HasBox(m, I.d, b, c, t) && HasBox(m, I.d, b', c, t))
  {
    OverlapStepHolds(I, m, c, t, b);
    OverlapFacts(m, I.d, c, t, b);
  }

  /** Two different boxes never share a cell. */
  lemma BoxesApart(I: Instance, m: seq<int>, c: Cell, t: int, b: int, b': int)
    requires Valid(I) && Satisfies(m, Clauses(I))
    requires InGrid(I.d, c) && 0 <= t < I.d.t && 1 <= b <= I.d.b && 1 <= b' <= I.d.b && b != b'
    ensures !(HasBox(m, I.d, b, c, t) && HasBox(m, I.d, b', c, t))
  {
    if b < b' {
      OverlapRule(I, m, c, t, b);
    } else {
      OverlapRule(I, m, c, t, b');
    }
  }

  lemma FinalHolds(I: Instance, m: seq<int>, c: Cell)
    requires Valid(I) && Satisfies(m, Clauses(I)) && InGrid(I.d, c)
    ensures Satisfies(m, FinalBoxes(I.d, c.x, c.y, I.d.b))
  {
    var d := I.d;
    ClausesSat(I, m);
    FinalRowsPart(m, d, d.n, c.x);
    FinalColsPart(m, d, c.x, d.m, c.y);
  }

  lemma FinalFacts(m: seq<int>, d: Dims, goals: seq<Cell>, c: Cell, b: int)
    requires InGrid(d, c) && 1 <= b <= d.b && d.t >= 1
    requires Satisfies(m, FinalBoxes(d, c.x, c.y, d.b)) && ClauseTrue(m, GoalUnit(d, goals, c.x, c.y))
    ensures HasBox(m, d, b, c, d.t - 1) ==> c in goals
  {
    Layout(d);
    var box, goal := VarBox(d, b, c.x, c.y, d.t - 1), VarGoal(d, c.x, c.y);
    FinalBoxesPart(m, d, c.x, c.y, d.b, b);
    GoalFacts(m, d, goals, c);
    if ModelTrue(m, box) {
      Implies1(m, box, goal);
    }
  }

  /** At the last time step every box stands on a goal cell. */
  lemma FinalRule(I: Instance, m: seq<int>, c: Cell, b: int)
    requires Valid(I) && Satisfies(m, Clauses(I))
    requires InGrid(I.d, c) && 1 <= b <= I.d.b
    ensures HasBox(m, I.d, b, c, I.d.t - 1) ==> c in I.goals
  {
    FinalHolds(I, m, c);
    GoalHolds(I, m, c);
    FinalFacts(m, I.d, I.goals, c, b);
  }

  // ---------------- exactly one action, one cell per piece ----------------

  lemma ActionFacts(m: seq<int>, d: Dims, t: int)
    requires 0 <= t < d.t && Satisfies(m, ActionStep(d, t))
    ensures exists a :: 1 <= a <= 9 && Does(m, d, a, t)
    ensures forall a, a' :: 1 <= a <= 9 && 1 <= a' <= 9 && Does(m, d, a, t) && Does(m, d, a', t) ==> a == a'
  {
    Layout(d);
    var lits := ActionLits(d, t);
    SatisfiesConcat(m, AtMostOne(lits), [lits]);
    SatisfiesUnit(m, lits);
    SomeTrue(m, lits);
    var j :| 0 <= j < 9 && ModelTrue(m, lits[j]);
    assert Does(m, d, j + 1, t);
    AtMostOneSound(m, lits);
    forall a, a' | 1 <= a <= 9 && 1 <= a' <= 9 && Does(m, d, a, t) && Does(m, d, a', t) ensures a == a' {
      assert lits[a - 1] == VarMove(d, a, t) && lits[a' - 1] == VarMove(d, a', t);
    }
  }

  /** Exactly one of the nine actions is taken at each time step. */
  lemma ActionRule(I: Instance, m: seq<int>, t: int)
    requires Valid(I) && Satisfies(m, Clauses(I)) && 0 <= t < I.d.t
    ensures exists a :: 1 <= a <= 9 && Does(m, I.d, a, t)
    ensures forall a, a' :: 1 <= a <= 9 && 1 <= a' <= 9 && Does(m, I.d, a, t) && Does(m, I.d, a', t) ==> a == a'
  {
    ClausesSat(I, m);
    ActionTimesPart(m, I.d, I.d.t, t);
    ActionFacts(m, I.d, t);
  }

  /** A model of the action clauses of time t reaches the stay variable of
      time t: either stay is true, or the true action's exclusion clause
      with stay can only hold through the stay literal. */
  lemma ActionReach(m: seq<int>, d: Dims, t: int)
    requires 0 <= t < d.t && Satisfies(m, ActionStep(d, t))
    ensures VarMove(d, 9, t) <= |m|
  {
    Layout(d);
    var lits := ActionLits(d, t);
    SatisfiesConcat(m, AtMostOne(lits), [lits]);
    SatisfiesUnit(m, lits);
    SomeTrue(m, lits);
    var j :| 0 <= j < 9 && ModelTrue(m, lits[j]);
    if j < 8 {
      AtMostOneHas(lits, j, 8);
      assert ClauseTrue(m, [-lits[j], -lits[8]]);
      ExcludedInside(m, lits[j], lits[8]);
    }
  }

  /** Every model of the clauses is long enough to hold every action
      variable, so reading the action block never indexes past its end. */
  lemma ModelReachesActions(I: Instance, m: seq<int>)
    requires Valid(I) && Satisfies(m, Clauses(I))
    ensures MoveBase(I.d) + 9 * I.d.t <= |m|
  {
    ClausesSat(I, m);
    ActionTimesPart(m, I.d, I.d.t, I.d.t - 1);
    ActionReach(m, I.d, I.d.t - 1);
  }

  /** Exactly-one clauses over variables make exactly one of them true. */
  lemma ExactlyOneTrue(m: seq<int>, lits: seq<int>)
    requires Satisfies(m, ExactlyOne(lits))
    requires forall k :: 0 <= k < |lits| ==> lits[k] >= 1
    ensures exists k :: 0 <= k < |lits| && ModelTrue(m, lits[k])
    ensures forall k, k' :: 0 <= k < |lits| && 0 <= k' < |lits| && ModelTrue(m, lits[k]) && ModelTrue(m, lits[k']) ==> k == k'
  {
    SatisfiesConcat(m, [lits], AtMostOne(lits));
    SatisfiesUnit(m, lits);
    SomeTrue(m, lits);
    AtMostOneSound(m, lits);
  }

  lemma UniqueHolds(I: Instance, m: seq<int>, t: int)
    requires Valid(I) && Satisfies(m, Clauses(I)) && 0 <= t < I.d.t
    ensures Satisfies(m, ExactlyOne(PlayerLits(I.d, t))) && Satisfies(m, UniqueBoxes(I.d, t, I.d.b))
  {
    ClausesSat(I, m);
    UniqueTimesPart(m, I.d, I.d.t, t);
    SatisfiesConcat(m, ExactlyOne(PlayerLits(I.d, t)), UniqueBoxes(I.d, t, I.d.b));
  }

  /** The player's variable of cell c sits at c's row-major index in PlayerLits. */
  lemma PlayerLitAt(d: Dims, t: int, c: Cell)
    requires InGrid(d, c) && 0 <= t < d.t
    ensures PlayerLits(d, t)[CellIndex(d, c)] == VarPlayer(d, c.x, c.y, t)
  {
  }

  lemma BoxLitAt(d: Dims, b: int, t: int, c: Cell)
    requires InGrid(d, c) && 1 <= b <= d.b && 0 <= t < d.t
    ensures BoxLits(d, b, t)[CellIndex(d, c)] == VarBox(d, b, c.x, c.y, t)
  {
  }

  lemma PlayerFacts(m: seq<int>, d: Dims, t: int)
    requires 0 <= t < d.t && Satisfies(m, ExactlyOne(PlayerLits(d, t)))
    ensures exists c :: InGrid(d, c) && HasPlayer(m, d, c, t)
    ensures forall c, c' :: InGrid(d, c) && InGrid(d, c') && HasPlayer(m, d, c, t) && HasPlayer(m, d, c', t) ==> c == c'
  {
    Layout(d);
    var lits := PlayerLits(d, t);
    ExactlyOneTrue(m, lits);
    var k :| 0 <= k < |lits| && ModelTrue(m, lits[k]);
    assert HasPlayer(m, d, CellAt(d, k), t);
    forall c, c' | InGrid(d, c) && InGrid(d, c') && HasPlayer(m, d, c, t) && HasPlayer(m, d, c', t) ensures c == c' {
      var k, k' := CellIndex(d, c), CellIndex(d, c');
      PlayerLitAt(d, t, c);
      PlayerLitAt(d, t, c');
      assert ModelTrue(m, lits[k]) && ModelTrue(m, lits[k']);
      assert k == k';
    }
  }

  /** The player stands on exactly one cell at each time step. */
  lemma PlayerUnique(I: Instance, m: seq<int>, t: int)
    requires Valid(I) && Satisfies(m, Clauses(I)) && 0 <= t < I.d.t
    ensures exists c :: InGrid(I.d, c) && HasPlayer(m, I.d, c, t)
    ensures forall c, c' :: InGrid(I.d, c) && InGrid(I.d, c') && HasPlayer(m, I.d, c, t) && HasPlayer(m, I.d, c', t) ==> c == c'
  {
    UniqueHolds(I, m, t);
    PlayerFacts(m, I.d, t);
  }

  lemma BoxFacts(m: seq<int>, d: Dims, t: int, b: int)
    requires 0 <= t < d.t && 1 <= b <= d.b && Satisfies(m, ExactlyOne(BoxLits(d, b, t)))
    ensures exists c :: InGrid(d, c) && HasBox(m, d, b, c, t)
    ensures forall c, c' :: InGrid(d, c) && InGrid(d, c') && HasBox(m, d, b, c, t) && HasBox(m, d, b, c', t) ==> c == c'
  {
    Layout(d);
    var lits := BoxLits(d, b, t);
    ExactlyOneTrue(m, lits);
    var k :| 0 <= k < |lits| && ModelTrue(m, lits[k]);
    assert HasBox(m, d, b, CellAt(d, k), t);
    forall c, c' | InGrid(d, c) && InGrid(d, c') && HasBox(m, d, b, c, t) && HasBox(m, d, b, c', t) ensures c == c' {
      var k, k' := CellIndex(d, c), CellIndex(d, c');
      BoxLitAt(d, b, t, c);
      BoxLitAt(d, b, t, c');
      assert ModelTrue(m, lits[k]) && ModelTrue(m, lits[k']);
      assert k == k';
    }
  }

  /** Box b stands on exactly one cell at each time step. */
  lemma BoxUnique(I: Instance, m: seq<int>, t: int, b: int)
    requires Valid(I) && Satisfies(m, Clauses(I)) && 0 <= t < I.d.t && 1 <= b <= I.d.b
    ensures exists c :: InGrid(I.d, c) && HasBox(m, I.d, b, c, t)
    ensures forall c, c' :: InGrid(I.d, c) && InGrid(I.d, c') && HasBox(m, I.d, b, c, t) && HasBox(m, I.d, b, c', t) ==> c == c'
  {
    UniqueHolds(I, m, t);
    UniqueBoxesPart(m, I.d, t, I.d.b, b);
    BoxFacts(m, I.d, t, b);
  }

  // ---------------- stay ----------------

  lemma StayCellHolds(I: Instance, m: seq<int>, c: Cell, t: int)
    requires Valid(I) && Satisfies(m, Clauses(I))
    requires InGrid(I.d, c) && 1 <= t < I.d.t
    ensures Satisfies(m, StayCell(I.d, t, c.x, c.y))
  {
    var d := I.d;
    ClausesSat(I, m);
    StayTimesPart(m, d, d.t, t);
    StayRowsPart(m, d, t, d.n, c.x);
    StayColsPart(m, d, t, c.x, d.m, c.y);
  }

  /** The player's stay clause of cell c, the last one the cell appends. */
  lemma StayPlayerFacts(m: seq<int>, d: Dims, c: Cell, t: int)
    requires InGrid(d, c) && 1 <= t < d.t
    requires Satisfies(m, StayCell(d, t, c.x, c.y))
    ensures Does(m, d, 9, t) && HasPlayer(m, d, c, t - 1) ==> HasPlayer(m, d, c, t)
  {
    Layout(d);
    var act, from, to := VarMove(d, 9, t), VarPlayer(d, c.x, c.y, t - 1), VarPlayer(d, c.x, c.y, t);
    SatisfiesConcat(m, StayBoxes(d, t, c.x, c.y, d.b), [[-act, -from, to]]);
    SatisfiesUnit(m, [-act, -from, to]);
    if ModelTrue(m, act) && ModelTrue(m, from) {
      Implies2(m, act, from, to);
    }
  }

  /** The stay clause of box b at cell c. */
  lemma StayBoxFacts(m: seq<int>, d: Dims, c: Cell, t: int, b: int)
    requires InGrid(d, c) && 1 <= t < d.t && 1 <= b <= d.b
    requires Satisfies(m, StayCell(d, t, c.x, c.y))
    ensures Does(m, d, 9, t) && HasBox(m, d, b, c, t - 1) ==> HasBox(m, d, b, c, t)
  {
    Layout(d);
    var act, before, after := VarMove(d, 9, t), VarBox(d, b, c.x, c.y, t - 1), VarBox(d, b, c.x, c.y, t);
    SatisfiesConcat(m, StayBoxes(d, t, c.x, c.y, d.b), [[-act, -VarPlayer(d, c.x, c.y, t - 1), VarPlayer(d, c.x, c.y, t)]]);
    StayBoxesPart(m, d, t, c.x, c.y, d.b, b);
    if ModelTrue(m, act) && ModelTrue(m, before) {
      Implies2(m, act, before, after);
    }
  }

  /** The stay action keeps the player where it was, with or without boxes. */
  lemma StayKeepsPlayer(I: Instance, m: seq<int>, c: Cell, t: int)
    requires Valid(I) && Satisfies(m, Clauses(I))
    requires InGrid(I.d, c) && 1 <= t < I.d.t
    ensures Does(m, I.d, 9, t) && HasPlayer(m, I.d, c, t - 1) ==> HasPlayer(m, I.d, c, t)
  {
    StayCellHolds(I, m, c, t);
    StayPlayerFacts(m, I.d, c, t);
  }

  /** The stay action keeps every box where it was. */
  lemma StayKeepsBox(I: Instance, m: seq<int>, c: Cell, t: int, b: int)
    requires Valid(I) && Satisfies(m, Clauses(I))
    requires InGrid(I.d, c) && 1 <= t < I.d.t && 1 <= b <= I.d.b
    ensures Does(m, I.d, 9, t) && HasBox(m, I.d, b, c, t - 1) ==> HasBox(m, I.d, b, c, t)
  {
    StayCellHolds(I, m, c, t);
    StayBoxFacts(m, I.d, c, t, b);
  }
}
