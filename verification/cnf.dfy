/** Clauses in the DIMACS convention, the meaning of a solver model, and the
    pairwise "at most one" clause pattern that both encoders use. */
module Cnf {

  /** A clause is a disjunction of signed literals: v stands for variable v,
      -v for its negation. A clause list is read as their conjunction. */
  type Clause = seq<int>

  /** What the external solver answers: unsatisfiable, or a model. */
  datatype SatOutcome = Unsat | Sat(model: seq<int>)

  function Abs(i: int): nat
  {
    if i < 0 then -i else i
  }

  /** A model lists one signed literal per variable: model[v - 1] > 0 says
      that variable v is true. A variable outside the model is not true. */
  predicate ModelTrue(model: seq<int>, v: int)
  {
    1 <= v <= |model| && model[v - 1] > 0
  }

  /** A literal holds when its variable is inside the model and has the
      literal's polarity; 0 and out-of-range literals never hold. */
  predicate LitTrue(model: seq<int>, lit: int)
  {
    lit != 0 && Abs(lit) <= |model| && (model[Abs(lit) - 1] > 0 <==> lit > 0)
  }

  predicate ClauseTrue(model: seq<int>, c: Clause)
  {
    exists j :: 0 <= j < |c| && LitTrue(model, c[j])
  }

  predicate Satisfies(model: seq<int>, cnf: seq<Clause>)
  {
    forall c :: c in cnf ==> ClauseTrue(model, c)
  }

  /** A concatenation of clause lists holds exactly when both parts hold. */
  lemma SatisfiesConcat(model: seq<int>, a: seq<Clause>, b: seq<Clause>)
    ensures Satisfies(model, a + b) <==> Satisfies(model, a) && Satisfies(model, b)
  {
    assert forall c :: c in a + b <==> c in a || c in b;
  }

  /** Appending is associative; stated once so that the loops that append
      clause by clause can name the regrouping they need. */
  lemma ConcatAssoc(a: seq<Clause>, b: seq<Clause>, c: seq<Clause>)
    ensures a + b + c == a + (b + c)
  {
  }

  /** Every literal of c is a nonzero literal over variables 1..bound. */
  predicate ClauseWithin(c: Clause, bound: int)
  {
    forall j :: 0 <= j < |c| ==> c[j] != 0 && Abs(c[j]) <= bound
  }

  predicate AllWithin(cnf: seq<Clause>, bound: int)
  {
    forall c :: c in cnf ==> ClauseWithin(c, bound)
  }

  lemma AllWithinConcat(a: seq<Clause>, b: seq<Clause>, bound: int)
    ensures AllWithin(a + b, bound) <==> AllWithin(a, bound) && AllWithin(b, bound)
  {
    assert forall c :: c in a + b <==> c in a || c in b;
  }

  /** A one-clause list holds exactly when its clause does. */
  lemma SatisfiesUnit(model: seq<int>, c: Clause)
    ensures Satisfies(model, [c]) <==> ClauseTrue(model, c)
  {
    assert c in [c];
  }

  lemma AllWithinUnit(c: Clause, bound: int)
    ensures AllWithin([c], bound) <==> ClauseWithin(c, bound)
  {
    assert c in [c];
  }

  /** The direction of AllWithinConcat that builds up a list. */
  lemma AllWithinJoin(a: seq<Clause>, b: seq<Clause>, bound: int)
    requires AllWithin(a, bound) && AllWithin(b, bound)
    ensures AllWithin(a + b, bound)
  {
    AllWithinConcat(a, b, bound);
  }

  /** When every literal but the last is the negation of a true variable, a
      true clause makes its last literal true: how an implication
      a1 && ... && ak ==> l, written [-a1, ..., -ak, l], is read. */
  lemma Forces(model: seq<int>, c: Clause)
    requires ClauseTrue(model, c) && |c| >= 1
    requires forall j :: 0 <= j < |c| - 1 ==> c[j] < 0 && ModelTrue(model, -c[j])
    ensures LitTrue(model, c[|c| - 1])
  {
    var j :| 0 <= j < |c| && LitTrue(model, c[j]);
    assert j == |c| - 1;
  }

  /** A true unit clause [v] over a variable v makes v true. */
  lemma UnitForces(model: seq<int>, v: int)
    requires v >= 1 && ClauseTrue(model, [v])
    ensures ModelTrue(model, v)
  {
    assert LitTrue(model, [v][0]);
  }

  /** A true unit clause [-v] over a variable v makes v false. */
  lemma UnitForbids(model: seq<int>, v: int)
    requires v >= 1 && ClauseTrue(model, [-v])
    ensures !ModelTrue(model, v)
  {
    assert LitTrue(model, [-v][0]);
  }

  /** A true exclusion [-a, -b] keeps a and b from both being true. */
  lemma NotBoth(model: seq<int>, a: int, b: int)
    requires a >= 1 && b >= 1 && ClauseTrue(model, [-a, -b])
    ensures !(ModelTrue(model, a) && ModelTrue(model, b))
  {
    var j :| 0 <= j < 2 && LitTrue(model, [-a, -b][j]);
  }

  /** When a is true, the clause [-a, -b] holds only through -b, whose
      variable must then lie inside the model. */
  lemma ExcludedInside(model: seq<int>, a: int, b: int)
    requires a >= 1 && b >= 1 && ClauseTrue(model, [-a, -b]) && ModelTrue(model, a)
    ensures b <= |model|
  {
    var k :| 0 <= k < 2 && LitTrue(model, [-a, -b][k]);
  }

  /** A true clause [-a, v] reads "a implies v". */
  lemma Implies1(model: seq<int>, a: int, v: int)
    requires a >= 1 && v >= 1 && ClauseTrue(model, [-a, v]) && ModelTrue(model, a)
    ensures ModelTrue(model, v)
  {
    var j :| 0 <= j < 2 && LitTrue(model, [-a, v][j]);
  }

  /** A true clause [-a, -b, v] reads "a and b imply v". */
  lemma Implies2(model: seq<int>, a: int, b: int, v: int)
    requires a >= 1 && b >= 1 && v >= 1 && ClauseTrue(model, [-a, -b, v])
    requires ModelTrue(model, a) && ModelTrue(model, b)
    ensures ModelTrue(model, v)
  {
    var j :| 0 <= j < 3 && LitTrue(model, [-a, -b, v][j]);
  }

  /** A true clause [-a, -b, -c, v] reads "a, b and c imply v". */
  lemma Implies3(model: seq<int>, a: int, b: int, c: int, v: int)
    requires a >= 1 && b >= 1 && c >= 1 && v >= 1 && ClauseTrue(model, [-a, -b, -c, v])
    requires ModelTrue(model, a) && ModelTrue(model, b) && ModelTrue(model, c)
    ensures ModelTrue(model, v)
  {
    var j :| 0 <= j < 4 && LitTrue(model, [-a, -b, -c, v][j]);
  }

  /** A true clause [-a, -b] + lits reads "a and b imply one of lits". */
  lemma ImpliesSome(model: seq<int>, a: int, b: int, lits: seq<int>)
    requires a >= 1 && b >= 1 && ClauseTrue(model, [-a, -b] + lits)
    requires ModelTrue(model, a) && ModelTrue(model, b)
    ensures exists j :: 0 <= j < |lits| && LitTrue(model, lits[j])
  {
    var c := [-a, -b] + lits;
    var j :| 0 <= j < |c| && LitTrue(model, c[j]);
    assert LitTrue(model, lits[j - 2]);
  }

  /** A true clause of variables makes one of them true. */
  lemma SomeTrue(model: seq<int>, lits: seq<int>)
    requires ClauseTrue(model, lits) && forall j :: 0 <= j < |lits| ==> lits[j] >= 1
    ensures exists j :: 0 <= j < |lits| && ModelTrue(model, lits[j])
  {
    var j :| 0 <= j < |lits| && LitTrue(model, lits[j]);
    assert ModelTrue(model, lits[j]);
  }

  // ---------------- a list built part by part ----------------

  /** part(0) + part(1) + ... + part(k - 1): what a loop over j = 0 .. k - 1
      produces when iteration j appends part(j). */
  function Gather(part: nat -> seq<Clause>, k: nat): seq<Clause>
  {
    if k == 0 then [] else Gather(part, k - 1) + part(k - 1)
  }

  /** A model of the gathered list is a model of every part, and conversely. */
  lemma {:induction false} GatherSatisfies(model: seq<int>, part: nat -> seq<Clause>, k: nat)
    ensures Satisfies(model, Gather(part, k)) <==> forall j: nat :: j < k ==> Satisfies(model, part(j))
  {
    if k > 0 {
      GatherSatisfies(model, part, k - 1);
      SatisfiesConcat(model, Gather(part, k - 1), part(k - 1));
    }
  }

  /** A model of the gathered list is a model of each part. */
  lemma GatherPart(model: seq<int>, part: nat -> seq<Clause>, k: nat, j: nat)
    requires j < k && Satisfies(model, Gather(part, k))
    ensures Satisfies(model, part(j))
  {
    GatherSatisfies(model, part, k);
  }

  /** A model of every part is a model of the gathered list. */
  lemma GatherAll(model: seq<int>, part: nat -> seq<Clause>, k: nat)
    requires forall j: nat :: j < k ==> Satisfies(model, part(j))
    ensures Satisfies(model, Gather(part, k))
  {
    GatherSatisfies(model, part, k);
  }

  /** The gathered list stays within a bound when every part does. */
  lemma {:induction false} GatherWithin(part: nat -> seq<Clause>, k: nat, bound: int)
    requires forall j: nat :: j < k ==> AllWithin(part(j), bound)
    ensures AllWithin(Gather(part, k), bound)
  {
    if k > 0 {
      GatherWithin(part, k - 1, bound);
      AllWithinConcat(Gather(part, k - 1), part(k - 1), bound);
    }
  }

  /** The literals of lits are variables (positive) of the model. */
  predicate VarsIn(model: seq<int>, lits: seq<int>)
  {
    forall i :: 0 <= i < |lits| ==> 1 <= lits[i] <= |model|
  }

  // ---------------- at most one of a list of variables ----------------

  /** The exclusions [-lits[i], -lits[j']] for i < j' < j, in increasing j'
      (the inner loop of the pairwise pattern). */
  function PairsFrom(lits: seq<int>, i: nat, j: nat): seq<Clause>
    requires i < |lits| && j <= |lits|
    decreases j
  {
    if j <= i + 1 then [] else PairsFrom(lits, i, j - 1) + [[-lits[i], -lits[j - 1]]]
  }

  /** The exclusions of every pair whose first index is below i (the outer loop). */
  function PairsBelow(lits: seq<int>, i: nat): seq<Clause>
    requires i <= |lits|
  {
    if i == 0 then [] else PairsBelow(lits, i - 1) + PairsFrom(lits, i - 1, |lits|)
  }

  /** One binary clause [-lits[i], -lits[j]] per pair i < j, in lexicographic order. */
  function AtMostOne(lits: seq<int>): seq<Clause>
  {
    PairsBelow(lits, |lits|)
  }

  /** Appends [-lits[i], -lits[j]] for every j from i + 1 up to the end of
      lits: the inner `for j in range(i + 1, n)` loop of both encoders. */
  method AppendPairsFrom(cnf: seq<Clause>, lits: seq<int>, i: nat) returns (r: seq<Clause>)
    requires i < |lits|
    ensures r == cnf + PairsFrom(lits, i, |lits|)
  {
    r := cnf;
    for j := i + 1 to |lits|
      invariant r == cnf + PairsFrom(lits, i, j)
    {
      ConcatAssoc(cnf, PairsFrom(lits, i, j), [[-lits[i], -lits[j]]]);
      r := r + [[-lits[i], -lits[j]]];
    }
  }

  /** Appends the pairwise exclusions over lits, as the nested
      `for i ... for j in range(i + 1, n)` loops of both encoders do. */
  method AppendAtMostOne(cnf: seq<Clause>, lits: seq<int>) returns (r: seq<Clause>)
    ensures r == cnf + AtMostOne(lits)
  {
    r := cnf;
    for i := 0 to |lits|
      invariant r == cnf + PairsBelow(lits, i)
    {
      ConcatAssoc(cnf, PairsBelow(lits, i), PairsFrom(lits, i, |lits|));
      r := AppendPairsFrom(r, lits, i);
    }
  }

  /** Collects lits into one clause while appending each literal's
      exclusions against the later ones, then appends that clause: the
      action loop of the Sokoban encoder. */
  method AppendPairsThenClause(cnf: seq<Clause>, lits: seq<int>) returns (r: seq<Clause>)
    ensures r == cnf + AtMostOne(lits) + [lits]
  {
    var clause := [];
    r := cnf;
    for i := 0 to |lits|
      invariant r == cnf + PairsBelow(lits, i)
      invariant clause == lits[..i]
    {
      assert lits[..i + 1] == lits[..i] + [lits[i]];
      clause := clause + [lits[i]];
      ConcatAssoc(cnf, PairsBelow(lits, i), PairsFrom(lits, i, |lits|));
      r := AppendPairsFrom(r, lits, i);
    }
    assert clause == lits;
    r := r + [clause];
  }

  /** Membership in a concatenation. */
  lemma InConcat<T>(a: seq<T>, b: seq<T>, c: T)
    ensures c in a + b <==> c in a || c in b
  {
  }

  lemma {:induction false} PairsFromHas(lits: seq<int>, i: nat, j: nat, k: nat)
    requires i < k < j <= |lits|
    ensures [-lits[i], -lits[k]] in PairsFrom(lits, i, j)
    decreases j
  {
    if k < j - 1 {
      PairsFromHas(lits, i, j - 1, k);
    }
  }

  lemma {:induction false} PairsBelowHas(lits: seq<int>, n: nat, i: nat, k: nat)
    requires i < n <= |lits| && i < k < |lits|
    ensures [-lits[i], -lits[k]] in PairsBelow(lits, n)
  {
    var below, from := PairsBelow(lits, n - 1), PairsFrom(lits, n - 1, |lits|);
    var c := [-lits[i], -lits[k]];
    if i < n - 1 {
      PairsBelowHas(lits, n - 1, i, k);
      assert c in below;
    } else {
      PairsFromHas(lits, i, |lits|, k);
      assert c in from;
    }
    InConcat(below, from, c);
  }

  /** Every pair i < j has its exclusion clause. */
  lemma AtMostOneHas(lits: seq<int>, i: nat, j: nat)
    requires i < j < |lits|
    ensures [-lits[i], -lits[j]] in AtMostOne(lits)
  {
    PairsBelowHas(lits, |lits|, i, j);
  }

  lemma {:induction false} PairsFromOnly(lits: seq<int>, i: nat, j: nat, c: Clause)
    requires i < |lits| && j <= |lits| && c in PairsFrom(lits, i, j)
    ensures exists k :: i < k < j && c == [-lits[i], -lits[k]]
    decreases j
  {
    if j > i + 1 && c in PairsFrom(lits, i, j - 1) {
      PairsFromOnly(lits, i, j - 1, c);
    }
  }

  lemma {:induction false} PairsBelowOnly(lits: seq<int>, n: nat, c: Clause)
    requires n <= |lits| && c in PairsBelow(lits, n)
    ensures exists i, k :: 0 <= i < k < |lits| && i < n && c == [-lits[i], -lits[k]]
  {
    if c in PairsBelow(lits, n - 1) {
      PairsBelowOnly(lits, n - 1, c);
    } else {
      PairsFromOnly(lits, n - 1, |lits|, c);
    }
  }

  /** The at-most-one clauses are exactly the pair exclusions: nothing else. */
  lemma AtMostOneOnly(lits: seq<int>, c: Clause)
    requires c in AtMostOne(lits)
    ensures exists i, j :: 0 <= i < j < |lits| && c == [-lits[i], -lits[j]]
  {
    PairsBelowOnly(lits, |lits|, c);
  }

  /** A model of the exclusions makes at most one of the variables true. */
  lemma AtMostOneSound(model: seq<int>, lits: seq<int>)
    requires Satisfies(model, AtMostOne(lits))
    ensures forall i, j :: 0 <= i < |lits| && 0 <= j < |lits| && ModelTrue(model, lits[i]) && ModelTrue(model, lits[j]) ==> i == j
  {
    forall i, j | 0 <= i < |lits| && 0 <= j < |lits|
      ensures ModelTrue(model, lits[i]) && ModelTrue(model, lits[j]) ==> i == j
    {
      if i < j {
        AtMostOneHas(lits, i, j);
      } else if j < i {
        AtMostOneHas(lits, j, i);
      }
    }
  }

  /** Conversely, a model with at most one of the variables true satisfies the exclusions. */
  lemma AtMostOneComplete(model: seq<int>, lits: seq<int>)
    requires VarsIn(model, lits)
    requires forall i, j :: 0 <= i < |lits| && 0 <= j < |lits| && ModelTrue(model, lits[i]) && ModelTrue(model, lits[j]) ==> i == j
    ensures Satisfies(model, AtMostOne(lits))
  {
    forall c | c in AtMostOne(lits) ensures ClauseTrue(model, c) {
      AtMostOneOnly(lits, c);
      var i, j :| 0 <= i < j < |lits| && c == [-lits[i], -lits[j]];
      if ModelTrue(model, lits[i]) {
        assert LitTrue(model, c[1]);
      } else {
        assert LitTrue(model, c[0]);
      }
    }
  }

  /** The exclusions mention only the negations of the listed literals. */
  lemma AtMostOneWithin(lits: seq<int>, bound: int)
    requires ClauseWithin(lits, bound)
    ensures AllWithin(AtMostOne(lits), bound)
  {
    forall c | c in AtMostOne(lits) ensures ClauseWithin(c, bound) {
      AtMostOneOnly(lits, c);
    }
  }
}
