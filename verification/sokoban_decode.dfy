/** Turning a model of the Sokoban clauses back into a plan, and the solve
    driver of Question2/q2.py. The decoder scans the nine action variables
    of every time step in variable order and writes one direction letter
    for each true move or push; a true stay writes nothing. */
module SokobanDecode {
  import opened Cnf
  import opened Wrappers
  import opened SokobanVars
  import opened SokobanClauses
  import opened SokobanRules
  import opened Sokoban
  import Radix

  // ---------------- letters ----------------

  /** The direction letters in the order of the direction numbers 0..3
      (up, right, down, left). */
  const DirLetters: seq<char> := "URDL"

  /** The letter written for action code num: moves 1..4 and pushes 5..8
      name their direction, stay (9) names none. */
  function ActionLetter(num: int): (s: seq<char>)
    ensures |s| <= 1
    ensures s != [] <==> 1 <= num <= 8
  {
    if 1 <= num <= 4 then [DirLetters[num - 1]]
    else if 5 <= num <= 8 then [DirLetters[num - 5]]
    else []
  }

  /** The row and column offset of a direction letter (the `DIRS` table). */
  function Offset(ch: char): (int, int)
  {
    match ch
    case 'U' => (-1, 0)
    case 'D' => (1, 0)
    case 'L' => (0, -1)
    case 'R' => (0, 1)
    case _ => (0, 0)
  }

  /** The move and the push in direction mv decode to the same letter, and
      that letter's offset is the neighbour the clauses use for mv. */
  lemma LetterDirection(mv: int, c: Cell)
    requires 0 <= mv < Directions
    ensures ActionLetter(mv + 1) == ActionLetter(mv + 5) == [DirLetters[mv]]
    ensures var o := Offset(DirLetters[mv]); Neighbour(c, mv) == Cell(c.x + o.0, c.y + o.1)
  {
  }

  /** Distinct directions decode to distinct letters. */
  lemma LettersDistinct(mv: int, mv': int)
    requires 0 <= mv < Directions && 0 <= mv' < Directions && mv != mv'
    ensures ActionLetter(mv + 1) != ActionLetter(mv' + 1)
  {
    assert ActionLetter(mv + 1)[0] == DirLetters[mv] && ActionLetter(mv' + 1)[0] == DirLetters[mv'];
  }

  // ---------------- the decoder ----------------

  /** What entry i of the model contributes when read as action code
      `code`: its letter when the variable i + 1 is true. */
  function Letter(model: seq<int>, i: nat, code: int): seq<char>
    requires i < |model|
  {
    if model[i] > 0 then ActionLetter(code) else []
  }

  /** The letters of the first k codes of the block of nine entries that
      starts at index start. */
  function Block(model: seq<int>, start: nat, k: nat): seq<char>
    requires k <= 9 && start + k <= |model|
  {
    if k == 0 then [] else Block(model, start, k - 1) + Letter(model, start + k - 1, k)
  }

  /** The letters of the first t blocks from index base on, block after block. */
  function Blocks(model: seq<int>, base: nat, t: nat): seq<char>
    requires base + 9 * t <= |model|
  {
    if t == 0 then [] else Blocks(model, base, t - 1) + Block(model, base + 9 * (t - 1), 9)
  }

  /** The letters after `step` whole blocks and j codes of the next one. */
  function Prefix(model: seq<int>, base: nat, step: nat, j: nat): seq<char>
    requires j <= 9 && base + 9 * step + j <= |model|
  {
    Blocks(model, base, step) + Block(model, base + 9 * step, j)
  }

  lemma Mod9(q: nat, r: nat, k: int)
    requires r < 9 && k == 9 * q + r
    ensures k % 9 == r
  {
    Radix.DivMod(q, r, 9);
    assert k == q * 9 + r;
  }

  /** Entry 9 step + j past base is read as code j + 1 of its block. */
  lemma LetterAt(model: seq<int>, base: nat, step: nat, j: nat, index: nat)
    requires j < 9 && index == base + 9 * step + j < |model|
    ensures Letter(model, index, (index - base) % 9 + 1) == Letter(model, base + 9 * step + j, j + 1)
  {
    Mod9(step, j, index - base);
  }

  /** One more entry extends the prefix by its letter; the ninth closes the block. */
  lemma PrefixNext(model: seq<int>, base: nat, step: nat, j: nat)
    requires j < 9 && base + 9 * step + j < |model|
    ensures Prefix(model, base, step, j) + Letter(model, base + 9 * step + j, j + 1) ==
            if j == 8 then Prefix(model, base, step + 1, 0) else Prefix(model, base, step, j + 1)
  {
    var done, part := Blocks(model, base, step), Block(model, base + 9 * step, j);
    var letter := Letter(model, base + 9 * step + j, j + 1);
    assert done + part + letter == done + (part + letter);
  }

  /** The letters of t whole blocks. */
  lemma PrefixWhole(model: seq<int>, base: nat, t: nat)
    requires base + 9 * t <= |model|
    ensures Prefix(model, base, t, 0) == Blocks(model, base, t)
  {
    assert Blocks(model, base, t) + [] == Blocks(model, base, t);
  }

  /** The body of the loop of `decode`: a true entry appends the letter of
      its code, codes 0..3 being moves and 4..7 pushes up, right, down,
      left; code 8 (stay) appends nothing. */
  method ReadEntry(model: seq<int>, base: nat, index: nat, moves: seq<char>) returns (r: seq<char>)
    requires base <= index < |model|
    ensures r == moves + Letter(model, index, (index - base) % 9 + 1)
  {
    r := moves;
    if model[index] > 0 {
      var code := (index - base) % 9;
      match code {
        case 0 => r := r + ['U'];
        case 1 => r := r + ['R'];
        case 2 => r := r + ['D'];
        case 3 => r := r + ['L'];
        case 4 => r := r + ['U'];
        case 5 => r := r + ['R'];
        case 6 => r := r + ['D'];
        case 7 => r := r + ['L'];
        case _ =>
      }
    }
  }

  /** The loop of `decode` over the action entries base .. base + 9t - 1:
      entry i is read as code (i - base) mod 9 of its block. */
  method ScanActions(model: seq<int>, base: nat, t: nat) returns (moves: seq<char>)
    requires base + 9 * t <= |model|
    ensures moves == Blocks(model, base, t)
  {
    moves := [];
    ghost var step, j := 0, 0;
    for index := base to base + 9 * t
      invariant 0 <= j < 9 && index - base == 9 * step + j && step <= t
      invariant moves == Prefix(model, base, step, j)
    {
      LetterAt(model, base, step, j, index);
      PrefixNext(model, base, step, j);
      moves := ReadEntry(model, base, index, moves);
      if j == 8 {
        step, j := step + 1, 0;
      } else {
        j := j + 1;
      }
    }
    assert step == t && j == 0;
    PrefixWhole(model, base, t);
  }

  /** `decode`: the action entries start after the goal and player blocks,
      at index (T + 1) N M. A model shorter than the last action variable
      makes the list index fail, so the caller must supply at least that
      many entries. */
  method Decode(model: seq<int>, e: SokobanEncoder) returns (moves: seq<char>)
    requires e.T >= 0 && MoveBase(e.Size()) + 9 * e.T <= |model|
    ensures MoveBase(e.Size()) >= 0 && moves == Blocks(model, MoveBase(e.Size()), e.T)
  {
    var n, m, t := e.N, e.M, e.T;
    var base := (t + 1) * n * m;
    assert base == MoveBase(e.Size()) >= 0 by {
      Layout(e.Size());
      assert (t + 1) * n * m == (t + 1) * m * n;
    }
    moves := ScanActions(model, base, t);
  }

  // ---------------- the same letters, step by step ----------------

  /** The letters of the true actions among codes 1..k at time t, in code order. */
  function ActionsFrom(model: seq<int>, d: Dims, t: int, k: nat): seq<char>
    requires 0 <= t < d.t && k <= 9
  {
    if k == 0 then []
    else ActionsFrom(model, d, t, k - 1) + (if Does(model, d, k, t) then ActionLetter(k) else [])
  }

  /** The letters of time t: one per true action variable of that step. */
  function StepLetters(model: seq<int>, d: Dims, t: int): seq<char>
    requires 0 <= t < d.t
  {
    ActionsFrom(model, d, t, 9)
  }

  /** The letters of times 0 .. t - 1, time after time. */
  function Steps(model: seq<int>, d: Dims, t: nat): seq<char>
    requires t <= d.t
  {
    if t == 0 then [] else Steps(model, d, t - 1) + StepLetters(model, d, t - 1)
  }

  /** Entry 9t + k - 1 of the action block is the variable of code k at time t. */
  lemma LetterIsAction(model: seq<int>, d: Dims, t: nat, k: nat)
    requires t < d.t && 1 <= k <= 9 && MoveBase(d) + 9 * d.t <= |model|
    ensures MoveBase(d) >= 0
    ensures Letter(model, MoveBase(d) + 9 * t + k - 1, k) == if Does(model, d, k, t) then ActionLetter(k) else []
  {
    Layout(d);
    assert MoveBase(d) + 9 * t + k - 1 == VarMove(d, k, t) - 1;
  }

  /** Block t of the action entries holds the action variables of time t. */
  lemma {:induction false} BlockIsStep(model: seq<int>, d: Dims, t: nat, k: nat)
    requires t < d.t && k <= 9 && MoveBase(d) + 9 * d.t <= |model|
    ensures MoveBase(d) >= 0 && Block(model, MoveBase(d) + 9 * t, k) == ActionsFrom(model, d, t, k)
  {
    Layout(d);
    if k > 0 {
      BlockIsStep(model, d, t, k - 1);
      LetterIsAction(model, d, t, k);
    }
  }

  /** The decode loop, read by index, yields the letters time step by time
      step: the letters of the true action variables of time 0, then of
      time 1, and so on. */
  lemma {:induction false} DecodeByTime(model: seq<int>, d: Dims, t: nat)
    requires t <= d.t && MoveBase(d) + 9 * d.t <= |model|
    ensures MoveBase(d) >= 0 && Blocks(model, MoveBase(d), t) == Steps(model, d, t)
  {
    Layout(d);
    if t > 0 {
      DecodeByTime(model, d, t - 1);
      BlockIsStep(model, d, t - 1, 9);
    }
  }

  // ---------------- plans ----------------

  /** The letters of a sequence of action codes, one step each. */
  function PlanOf(actions: seq<int>): (moves: seq<char>)
    ensures |moves| <= |actions|
  {
    if actions == [] then []
    else PlanOf(actions[..|actions| - 1]) + ActionLetter(actions[|actions| - 1])
  }

  /** A plan that starts with a stay has at most one letter per later step. */
  lemma {:induction false} PlanAfterStay(actions: seq<int>)
    requires |actions| >= 1 && actions[0] == 9
    ensures |PlanOf(actions)| <= |actions| - 1
  {
    if |actions| > 1 {
      var init := actions[..|actions| - 1];
      assert init[0] == 9;
      PlanAfterStay(init);
    }
  }

  /** A run of stays writes no letter. */
  lemma {:induction false} PlanOfStays(actions: seq<int>)
    requires forall t :: 0 <= t < |actions| ==> actions[t] == 9
    ensures PlanOf(actions) == []
  {
    if actions != [] {
      PlanOfStays(actions[..|actions| - 1]);
    }
  }

  /** Exactly action a is true at time t. */
  predicate OnlyAction(model: seq<int>, d: Dims, t: int, a: int)
    requires 0 <= t < d.t
  {
    1 <= a <= 9 && forall a' :: 1 <= a' <= 9 ==> (Does(model, d, a', t) <==> a' == a)
  }

  lemma {:induction false} ActionsFromOnly(model: seq<int>, d: Dims, t: int, a: int, k: nat)
    requires 0 <= t < d.t && k <= 9 && OnlyAction(model, d, t, a)
    ensures ActionsFrom(model, d, t, k) == if a <= k then ActionLetter(a) else []
  {
    if k > 0 {
      ActionsFromOnly(model, d, t, a, k - 1);
      assert Does(model, d, k, t) <==> k == a;
    }
  }

  /** When each step has exactly one true action, the letters are the plan
      of those actions. */
  lemma {:induction false} StepsFollow(model: seq<int>, d: Dims, actions: seq<int>, k: nat)
    requires k <= |actions| == d.t
    requires forall t :: 0 <= t < d.t ==> OnlyAction(model, d, t, actions[t])
    ensures Steps(model, d, k) == PlanOf(actions[..k])
  {
    if k > 0 {
      StepsFollow(model, d, actions, k - 1);
      ActionsFromOnly(model, d, k - 1, actions[k - 1], 9);
      assert actions[..k][..k - 1] == actions[..k - 1];
    }
  }

  /** Some action is true at time t, and no two are. */
  predicate OneActionAt(m: seq<int>, d: Dims, t: int)
    requires 0 <= t < d.t
  {
    (exists a :: 1 <= a <= 9 && Does(m, d, a, t)) &&
    forall a, a' :: 1 <= a <= 9 && 1 <= a' <= 9 && Does(m, d, a, t) && Does(m, d, a', t) ==> a == a'
  }

  /** The action clauses, gathered over time. */
  lemma ActionsEverywhere(I: Instance, m: seq<int>)
    requires Valid(I) && Satisfies(m, Clauses(I))
    ensures forall t :: 0 <= t < I.d.t ==> OneActionAt(m, I.d, t)
  {
    forall t | 0 <= t < I.d.t
      ensures OneActionAt(m, I.d, t)
    {
      ActionRule(I, m, t);
    }
  }

  /** One true action per step, picked for each of the first k steps. */
  lemma {:induction false} ChooseActions(m: seq<int>, d: Dims, k: nat) returns (actions: seq<int>)
    requires k <= d.t && forall t :: 0 <= t < d.t ==> OneActionAt(m, d, t)
    ensures |actions| == k
    ensures forall t :: 0 <= t < k ==> OnlyAction(m, d, t, actions[t])
  {
    if k == 0 {
      actions := [];
    } else {
      var init := ChooseActions(m, d, k - 1);
      assert OneActionAt(m, d, k - 1);
      var a :| 1 <= a <= 9 && Does(m, d, a, k - 1);
      actions := init + [a];
    }
  }

  /** What the decoder reads from any model of the encoding: one action per
      time step, a stay at time 0, and one letter for each later move or
      push, in time order; so at most T letters for horizon T. */
  lemma DecodedPlan(I: Instance, m: seq<int>) returns (actions: seq<int>)
    requires Valid(I) && Satisfies(m, Clauses(I)) && MoveBase(I.d) + 9 * I.d.t <= |m|
    ensures |actions| == I.d.t && actions[0] == 9
    ensures forall t :: 0 <= t < I.d.t ==> OnlyAction(m, I.d, t, actions[t])
    ensures MoveBase(I.d) >= 0
    ensures Blocks(m, MoveBase(I.d), I.d.t) == PlanOf(actions)
    ensures |Blocks(m, MoveBase(I.d), I.d.t)| <= I.d.t - 1
  {
    ActionsEverywhere(I, m);
    actions := ChooseActions(m, I.d, I.d.t);
    StartRule(I, m);
    assert actions[0] == 9;
    StepsFollow(m, I.d, actions, I.d.t);
    assert actions[..I.d.t] == actions;
    DecodeByTime(m, I.d, I.d.t);
    PlanAfterStay(actions);
  }

  // ---------------- solving ----------------

  /** What `solve_sokoban` returns: -1 when there is no plan, the letters
      otherwise. */
  datatype PlanResult = NoPlan | Plan(moves: seq<char>)

  /** The start the parse keeps: the last 'P' in row-major order. */
  function StartOf(grid: seq<seq<char>>): Option<Cell>
    requires |grid| >= 1 && Rect(grid, |grid[0]|)
  {
    LastOr(None, Marked(grid, |grid[0]|, 'P', |grid|))
  }

  /** Every cell the parse marks with ch lies on the grid. */
  lemma MarkedOnGrid(grid: seq<seq<char>>, ch: char, d: Dims)
    requires |grid| >= 1 && d.n == |grid| && d.m == |grid[0]| && Rect(grid, d.m)
    ensures forall k :: 0 <= k < |Marked(grid, d.m, ch, d.n)| ==> InGrid(d, Marked(grid, d.m, ch, d.n)[k])
  {
    var cs := Marked(grid, d.m, ch, d.n);
    forall k | 0 <= k < |cs|
      ensures InGrid(d, cs[k])
    {
      MarkedIff(grid, d.m, ch, d.n, cs[k]);
    }
  }

  /** A grid with a 'P' has a start, and it lies on the grid. */
  lemma StartOnGrid(grid: seq<seq<char>>, d: Dims)
    requires |grid| >= 1 && d.n == |grid| && d.m == |grid[0]| && Rect(grid, d.m)
    requires exists x, y :: 0 <= x < |grid| && 0 <= y < |grid[0]| && grid[x][y] == 'P'
    ensures StartOf(grid).Some? && InGrid(d, StartOf(grid).value)
  {
    var x, y :| 0 <= x < d.n && 0 <= y < d.m && grid[x][y] == 'P';
    MarkedIff(grid, d.m, 'P', d.n, Cell(x, y));
    var ps := Marked(grid, d.m, 'P', d.n);
    MarkedIff(grid, d.m, 'P', d.n, ps[|ps| - 1]);
  }

  /** The instance the encoder builds from grid and horizon. */
  function GridInstance(grid: seq<seq<char>>, horizon: int): (I: Instance)
    requires |grid| >= 1 && Rect(grid, |grid[0]|) && horizon >= 0
    requires exists x, y :: 0 <= x < |grid| && 0 <= y < |grid[0]| && grid[x][y] == 'P'
    ensures Valid(I) && I.d.t == horizon + 1
  {
    var m := |grid[0]|;
    var boxes := Marked(grid, m, 'B', |grid|);
    var d := Dims(|grid|, m, horizon + 1, |boxes|);
    MarkedOnGrid(grid, 'B', d);
    MarkedOnGrid(grid, '#', d);
    StartOnGrid(grid, d);
    Instance(d, StartOf(grid).value, boxes, Marked(grid, m, 'G', |grid|), Marked(grid, m, '#', |grid|))
  }

  /** `solve_sokoban`: encode, hand the clauses to the solver, and decode
      its model. The solver is a parameter; all the model assumes of it is
      that a model it reports satisfies the clauses it was given. */
  method SolveSokoban(grid: seq<seq<char>>, horizon: int, solve: seq<Clause> -> SatOutcome) returns (r: PlanResult)
    requires |grid| >= 1 && Rect(grid, |grid[0]|) && horizon >= 0
    requires exists x, y :: 0 <= x < |grid| && 0 <= y < |grid[0]| && grid[x][y] == 'P'
    requires forall f :: solve(f).Sat? ==> Satisfies(solve(f).model, f)
    ensures var I := GridInstance(grid, horizon);
            var out := solve(Clauses(I));
            (r.NoPlan? <==> out.Unsat? || out.model == []) &&
            (out.Sat? ==> MoveBase(I.d) + 9 * I.d.t <= |out.model|) &&
            (r.Plan? ==> MoveBase(I.d) >= 0 && r.moves == Blocks(out.model, MoveBase(I.d), I.d.t) && |r.moves| <= horizon)
  {
    var e := new SokobanEncoder(grid, horizon);
    ParsedStart(e);
    var cnf := e.Encode();
    ghost var I := GridInstance(grid, horizon);
    assert e.Inst() == I;
    var out := solve(cnf);
    if out.Unsat? {
      return NoPlan;
    }
    var model := out.model;
    ModelReachesActions(I, model);
    if model == [] {
      return NoPlan;
    }
    var moves := Decode(model, e);
    var _ := DecodedPlan(I, model);
    r := Plan(moves);
  }
}
