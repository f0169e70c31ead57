/** The variable numbering of the Sokoban encoder (Question2/q2.py): one block
    of variables per kind of fact, laid out one after the other from 1:
    goal cells, then the player's cell per time step, then nine action codes
    per time step, then each box's cell per time step. */
module SokobanVars {
  import Radix

  /** The encoder's dimensions: n rows, m columns, t time steps 0..t-1 (the
      caller's horizon plus one) and b boxes. */
  datatype Dims = Dims(n: nat, m: nat, t: nat, b: nat)

  /** A grid cell: row x, column y. */
  datatype Cell = Cell(x: int, y: int)

  predicate InGrid(d: Dims, c: Cell)
  {
    0 <= c.x < d.n && 0 <= c.y < d.m
  }

  /** The number of cells. */
  function Cells(d: Dims): nat
  {
    d.n * d.m
  }

  /** The first variable after the player block: the action block starts here. */
  function MoveBase(d: Dims): int
  {
    (d.t + 1) * d.m * d.n
  }

  /** The first variable after the action block: the box block starts here. */
  function BoxBase(d: Dims): int
  {
    (1 + d.t) * d.n * d.m + 9 * d.t
  }

  /** The number of variables: (t + 1) * cells + 9 * t + b * t * cells. */
  function NumVars(d: Dims): int
  {
    BoxBase(d) + d.b * d.t * Cells(d)
  }

  lemma BasesAgree(d: Dims)
    ensures MoveBase(d) == (d.t + 1) * Cells(d)
    ensures BoxBase(d) == (d.t + 1) * Cells(d) + 9 * d.t
  {
    assert (d.t + 1) * d.m * d.n == (d.t + 1) * (d.n * d.m);
    assert (1 + d.t) * d.n * d.m == (d.t + 1) * (d.n * d.m);
  }

  /** The blocks follow one another: goals, players, actions, boxes. */
  lemma Layout(d: Dims)
    ensures Cells(d) <= MoveBase(d)
    ensures MoveBase(d) + 9 * d.t == BoxBase(d) <= NumVars(d)
  {
    BasesAgree(d);
    Radix.MulAtLeast(d.t + 1, Cells(d));
  }

  /** The row-major index x * m + y of an in-grid cell lies in [0, cells). */
  lemma CellIndexBound(d: Dims, x: int, y: int)
    requires 0 <= x < d.n && 0 <= y < d.m
    ensures 0 <= x * d.m + y < Cells(d)
  {
    Radix.Digit(x, y, d.n, d.m);
  }

  /** `var_goal`: goal flags occupy [1, cells]. */
  function VarGoal(d: Dims, x: int, y: int): (v: int)
    requires 0 <= x < d.n && 0 <= y < d.m
    ensures 1 <= v <= Cells(d)
  {
    CellIndexBound(d, x, y);
    x * d.m + y + 1
  }

  /** `var_player`: the player's cell at time t occupies block t + 1 of size cells. */
  function VarPlayer(d: Dims, x: int, y: int, t: int): (v: int)
    requires 0 <= x < d.n && 0 <= y < d.m && 0 <= t < d.t
    ensures Cells(d) < v <= MoveBase(d)
  {
    CellIndexBound(d, x, y);
    BasesAgree(d);
    assert (t + 1) * d.m * d.n == (t + 1) * Cells(d);
    Radix.Digit(t + 1, x * d.m + y, d.t + 1, Cells(d));
    Radix.MulSign(t + 1, Cells(d));
    (t + 1) * d.m * d.n + x * d.m + y + 1
  }

  /** `var_move`: action codes 1..9 (move U, R, D, L, push U, R, D, L, stay)
      at time t occupy nine consecutive variables after the player block. */
  function VarMove(d: Dims, num: int, t: int): (v: int)
    requires 1 <= num <= 9 && 0 <= t < d.t
    ensures MoveBase(d) < v <= MoveBase(d) + 9 * d.t
  {
    (d.t + 1) * d.m * d.n + 9 * t + num
  }

  /** `var_box`: box b (from 1) at time t occupies the block numbered
      d.b * t + (b - 1) after the action block. */
  function VarBox(d: Dims, b: int, x: int, y: int, t: int): (v: int)
    requires 1 <= b <= d.b && 0 <= x < d.n && 0 <= y < d.m && 0 <= t < d.t
    ensures BoxBase(d) < v <= NumVars(d)
  {
    CellIndexBound(d, x, y);
    var k := d.b * t + (b - 1);
    Radix.Digit(t, b - 1, d.t, d.b);
    assert t * d.b == d.b * t;
    assert d.t * d.b == d.b * d.t;
    Radix.Digit(k, x * d.m + y, d.b * d.t, Cells(d));
    Radix.BlockSum(d.b * t, b - 1, d.n, d.m, k);
    (1 + d.t) * d.n * d.m + 9 * d.t + d.b * t * d.n * d.m + (b - 1) * d.n * d.m + x * d.m + y + 1
  }

  // ---------------- the numbering is a bijection ----------------

  /** The domain facts that have a variable. */
  datatype Fact =
    | GoalAt(x: int, y: int)
    | PlayerAt(x: int, y: int, t: int)
    | MoveAt(num: int, t: int)
    | BoxAt(b: int, x: int, y: int, t: int)

  predicate ValidFact(d: Dims, f: Fact)
  {
    match f
    case GoalAt(x, y) => 0 <= x < d.n && 0 <= y < d.m
    case PlayerAt(x, y, t) => 0 <= x < d.n && 0 <= y < d.m && 0 <= t < d.t
    case MoveAt(num, t) => 1 <= num <= 9 && 0 <= t < d.t
    case BoxAt(b, x, y, t) => 1 <= b <= d.b && 0 <= x < d.n && 0 <= y < d.m && 0 <= t < d.t
  }

  /** The variable of a fact; the four kinds land in disjoint consecutive ranges. */
  function VarOf(d: Dims, f: Fact): (v: int)
    requires ValidFact(d, f)
    ensures 1 <= v <= NumVars(d)
    ensures f.GoalAt? <==> 1 <= v <= Cells(d)
    ensures f.PlayerAt? <==> Cells(d) < v <= MoveBase(d)
    ensures f.MoveAt? <==> MoveBase(d) < v <= MoveBase(d) + 9 * d.t
    ensures f.BoxAt? <==> BoxBase(d) < v
  {
    Layout(d);
    match f
    case GoalAt(x, y) => VarGoal(d, x, y)
    case PlayerAt(x, y, t) => VarPlayer(d, x, y, t)
    case MoveAt(num, t) => VarMove(d, num, t)
    case BoxAt(b, x, y, t) => VarBox(d, b, x, y, t)
  }

  /** The cell with row-major index c. */
  function CellAt(d: Dims, c: int): (cell: Cell)
    requires 0 <= c < Cells(d)
    ensures InGrid(d, cell) && cell.x * d.m + cell.y == c
  {
    Radix.DivBelow(c, d.m, d.n);
    Cell(c / d.m, c % d.m)
  }

  lemma CellAtIndex(d: Dims, x: int, y: int)
    requires 0 <= x < d.n && 0 <= y < d.m
    ensures 0 <= x * d.m + y < Cells(d) && CellAt(d, x * d.m + y) == Cell(x, y)
  {
    CellIndexBound(d, x, y);
    Radix.DivMod(x, y, d.m);
  }

  /** The row-major index of an in-grid cell, which CellAt inverts. */
  function CellIndex(d: Dims, c: Cell): (k: int)
    requires InGrid(d, c)
    ensures 0 <= k < Cells(d) && CellAt(d, k) == c
  {
    CellAtIndex(d, c.x, c.y);
    c.x * d.m + c.y
  }

  /** The player fact whose variable is cells + 1 + u. */
  function PlayerFact(d: Dims, u: int): (f: Fact)
    requires 0 <= u < d.t * Cells(d)
    ensures f.PlayerAt? && ValidFact(d, f) && VarPlayer(d, f.x, f.y, f.t) == Cells(d) + 1 + u
  {
    var s := Cells(d);
    Radix.PositiveFactors(d.t, s);
    Radix.DivBelow(u, s, d.t);
    var t := u / s;
    var c := CellAt(d, u % s);
    assert u == t * s + u % s;
    assert (t + 1) * d.m * d.n == (t + 1) * s;
    assert (t + 1) * s == t * s + s;
    PlayerAt(c.x, c.y, t)
  }

  /** The box fact whose variable is BoxBase + 1 + u. */
  function BoxFact(d: Dims, u: int): (f: Fact)
    requires 0 <= u < d.b * d.t * Cells(d)
    ensures f.BoxAt? && ValidFact(d, f) && VarBox(d, f.b, f.x, f.y, f.t) == BoxBase(d) + 1 + u
  {
    var s := Cells(d);
    Radix.PositiveFactors(d.b * d.t, s);
    Radix.DivBelow(u, s, d.b * d.t);
    var k := u / s;
    Radix.PositiveFactors(d.b, d.t);
    Radix.DivBelow(k, d.b, d.t);
    var c := CellAt(d, u % s);
    var t := k / d.b;
    var b := k % d.b + 1;
    assert k == d.b * t + (b - 1);
    Radix.BlockSum(d.b * t, b - 1, d.n, d.m, k);
    assert u == k * s + u % s;
    BoxAt(b, c.x, c.y, t)
  }

  /** The fact a variable in [1, NumVars] stands for: the inverse numbering. */
  function FactOf(d: Dims, v: int): (f: Fact)
    requires 1 <= v <= NumVars(d)
    ensures ValidFact(d, f) && VarOf(d, f) == v
  {
    BasesAgree(d);
    if v <= Cells(d) then
      var c := CellAt(d, v - 1);
      GoalAt(c.x, c.y)
    else if v <= MoveBase(d) then
      assert (d.t + 1) * Cells(d) == d.t * Cells(d) + Cells(d);
      PlayerFact(d, v - Cells(d) - 1)
    else if v <= MoveBase(d) + 9 * d.t then
      var u := v - MoveBase(d) - 1;
      MoveAt(u % 9 + 1, u / 9)
    else
      BoxFact(d, v - BoxBase(d) - 1)
  }

  lemma PlayerFactOf(d: Dims, x: int, y: int, t: int)
    requires 0 <= x < d.n && 0 <= y < d.m && 0 <= t < d.t
    ensures var u := VarPlayer(d, x, y, t) - Cells(d) - 1;
            0 <= u < d.t * Cells(d) && PlayerFact(d, u) == PlayerAt(x, y, t)
  {
    var s := Cells(d);
    CellAtIndex(d, x, y);
    var u := VarPlayer(d, x, y, t) - s - 1;
    assert (t + 1) * d.m * d.n == (t + 1) * s;
    assert u == t * s + (x * d.m + y);
    Radix.DivMod(t, x * d.m + y, s);
    Radix.Digit(t, x * d.m + y, d.t, s);
  }

  lemma BoxFactOf(d: Dims, b: int, x: int, y: int, t: int)
    requires 1 <= b <= d.b && 0 <= x < d.n && 0 <= y < d.m && 0 <= t < d.t
    ensures var u := VarBox(d, b, x, y, t) - BoxBase(d) - 1;
            0 <= u < d.b * d.t * Cells(d) && BoxFact(d, u) == BoxAt(b, x, y, t)
  {
    var s := Cells(d);
    var c := x * d.m + y;
    CellAtIndex(d, x, y);
    var k := t * d.b + (b - 1);
    assert d.b * t * d.n * d.m == (t * d.b) * s;
    assert (b - 1) * d.n * d.m == (b - 1) * s;
    assert (t * d.b) * s + (b - 1) * s == k * s;
    var u := VarBox(d, b, x, y, t) - BoxBase(d) - 1;
    assert u == k * s + c;
    Radix.Digit(t, b - 1, d.t, d.b);
    assert d.t * d.b == d.b * d.t;
    Radix.Digit(k, c, d.b * d.t, s);
    assert d.b * d.t * s == (d.b * d.t) * s;
    Radix.DivMod(k, c, s);
    Radix.DivMod(t, b - 1, d.b);
  }

  /** Distinct facts have distinct variables: FactOf undoes VarOf. */
  lemma FactOfVarOf(d: Dims, f: Fact)
    requires ValidFact(d, f)
    ensures FactOf(d, VarOf(d, f)) == f
  {
    BasesAgree(d);
    match f
    case GoalAt(x, y) =>
      CellAtIndex(d, x, y);
    case PlayerAt(x, y, t) =>
      PlayerFactOf(d, x, y, t);
    case MoveAt(num, t) =>
      var u := VarMove(d, num, t) - MoveBase(d) - 1;
      assert u == t * 9 + (num - 1);
      Radix.DivMod(t, num - 1, 9);
    case BoxAt(b, x, y, t) =>
      BoxFactOf(d, b, x, y, t);
  }

  lemma VarOfInjective(d: Dims, f: Fact, g: Fact)
    requires ValidFact(d, f) && ValidFact(d, g) && VarOf(d, f) == VarOf(d, g)
    ensures f == g
  {
    FactOfVarOf(d, f);
    FactOfVarOf(d, g);
  }
}
