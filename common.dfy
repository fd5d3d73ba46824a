/** Values and operators shared by the three Differential Evolution variants
    of the repository: individuals and box bounds, clipping, uniform scaling,
    the index lists the donors are drawn from, the DE/rand/1 mutant, per-gene
    crossover and minimum search. */
module Common {

  /** A candidate solution: one real gene per dimension. */
  type Individual = seq<real>

  /** Inclusive range [lo, hi] of one dimension. */
  datatype Bound = Bound(lo: real, hi: real)

  /** What the code relies on without checking it: at least one dimension,
      and lo <= hi in each of them. */
  predicate WellFormed(bounds: seq<Bound>)
  {
    |bounds| >= 1 && forall d :: 0 <= d < |bounds| ==> bounds[d].lo <= bounds[d].hi
  }

  predicate InBox(x: Individual, bounds: seq<Bound>)
  {
    |x| == |bounds| && forall d {:trigger x[d]} :: 0 <= d < |x| ==> bounds[d].lo <= x[d] <= bounds[d].hi
  }

  predicate PopulationInBox(pop: seq<Individual>, bounds: seq<Bound>)
  {
    forall k :: 0 <= k < |pop| ==> InBox(pop[k], bounds)
  }

  /** Every individual has exactly `dims` genes. */
  predicate Shaped(pop: seq<Individual>, dims: nat)
  {
    forall k :: 0 <= k < |pop| ==> |pop[k]| == dims
  }

  function Dist(a: real, b: real): real
  {
    if a < b then b - a else a - b
  }

  /** `np.clip` of one gene: the point of [lo, hi] nearest to x. */
  function Clip(x: real, lo: real, hi: real): (r: real)
    requires lo <= hi
    ensures lo <= r <= hi
    ensures lo <= x <= hi ==> r == x
    ensures forall y :: lo <= y <= hi ==> Dist(r, x) <= Dist(y, x)
  {
    if x < lo then lo else if x > hi then hi else x
  }

  /** Gene-wise clip of a vector into the box. */
  function ClipToBox(v: Individual, bounds: seq<Bound>): (r: Individual)
    requires |v| == |bounds| && WellFormed(bounds)
    ensures InBox(r, bounds)
    ensures forall d {:trigger r[d]} :: 0 <= d < |v| && bounds[d].lo <= v[d] <= bounds[d].hi ==> r[d] == v[d]
  {
    seq(|v|, d requires 0 <= d < |v| => Clip(v[d], bounds[d].lo, bounds[d].hi))
  }

  /** A uniform draw u in [0, 1) scaled to [lo, hi]: `lo + u * (hi - lo)`,
      as `np.random.uniform`, `random.uniform` and the initialiser compute it. */
  function Uniform(lo: real, hi: real, u: real): (r: real)
    requires lo <= hi && 0.0 <= u < 1.0
    ensures lo <= r <= hi
    ensures lo < hi ==> r < hi
  {
    var w := hi - lo;
    ScaleBelow(u, w);
    lo + u * w
  }

  lemma ScaleBelow(u: real, w: real)
    requires 0.0 <= u < 1.0 && 0.0 <= w
    ensures 0.0 <= u * w <= w
    ensures 0.0 < w ==> u * w < w
  {
    assert w - u * w == (1.0 - u) * w;
  }

  /** A `rows` x `cols` matrix of uniform draws in [0, 1). */
  predicate UnitDraws(u: seq<seq<real>>, rows: nat, cols: nat)
  {
    |u| == rows && forall k :: 0 <= k < rows ==> |u[k]| == cols && forall d :: 0 <= d < cols ==> 0.0 <= u[k][d] < 1.0
  }

  /** The initial population: gene d of individual k is `lo_d + u[k][d] * (hi_d - lo_d)`,
      as `np.random.uniform` over the box and `inicializar_poblacion` compute it. */
  function InitialPopulation(bounds: seq<Bound>, popSize: nat, u: seq<seq<real>>): (pop: seq<Individual>)
    requires WellFormed(bounds) && UnitDraws(u, popSize, |bounds|)
    ensures |pop| == popSize && PopulationInBox(pop, bounds)
  {
    seq(popSize, k requires 0 <= k < popSize => Drawn(bounds, u[k]))
  }

  /** One individual drawn from a row of unit draws: gene d is
      `lo_d + row[d] * (hi_d - lo_d)`. */
  function Drawn(bounds: seq<Bound>, row: seq<real>): (x: Individual)
    requires WellFormed(bounds) && |row| == |bounds| && forall d :: 0 <= d < |row| ==> 0.0 <= row[d] < 1.0
    ensures InBox(x, bounds)
  {
    seq(|bounds|, d requires 0 <= d < |bounds| => Uniform(bounds[d].lo, bounds[d].hi, row[d]))
  }

  // ---------------------------------------------------------------------------
  // Sum of squares
  // ---------------------------------------------------------------------------

  /** The sum of the squares of the first n genes; over all genes it is the
      objective of the class example and of the quick script. */
  function SumOfSquares(x: Individual, n: nat): (r: real)
    requires n <= |x|
    ensures r >= 0.0
    decreases n
  {
    if n == 0 then 0.0 else SumOfSquares(x, n - 1) + x[n - 1] * x[n - 1]
  }

  /** A sum of squares is zero when the genes it adds up are all zero. */
  lemma {:induction false} SumOfSquaresZero(x: Individual, n: nat)
    requires n <= |x| && forall d :: 0 <= d < n ==> x[d] == 0.0
    ensures SumOfSquares(x, n) == 0.0
    decreases n
  {
    if n > 0 {
      SumOfSquaresZero(x, n - 1);
    }
  }

  // ---------------------------------------------------------------------------
  // Index lists and donor choice
  // ---------------------------------------------------------------------------

  /** The list [a, a+1, ..., a+m-1]; Interval(0, n) is `list(range(n))`.
      Its contents are characterised by `IntervalFacts`. */
  function Interval(a: nat, m: nat): (r: seq<nat>)
    ensures |r| == m
  {
    seq(m, k requires 0 <= k < m => a + k)
  }

  /** `list(range(n))` shifted to start at a: m entries in strictly
      increasing order, holding exactly the numbers from a below a + m. */
  lemma IntervalFacts(a: nat, m: nat)
    ensures var r := Interval(a, m);
            (forall x :: x in r <==> a <= x < a + m)
            && (forall j, k :: 0 <= j < k < |r| ==> r[j] < r[k])
  {
    var r := Interval(a, m);
    forall x | a <= x < a + m
      ensures x in r
    {
      assert r[x - a] == x;
    }
  }

  /** Python's `list.remove(x)`: drops the first occurrence of x. */
  function RemoveFirst(s: seq<nat>, x: nat): (r: seq<nat>)
    requires x in s
    ensures |r| == |s| - 1
  {
    if s[0] == x then s[1..] else [s[0]] + RemoveFirst(s[1..], x)
  }

  /** `list.remove(x)` takes away exactly one occurrence of x and keeps
      every other element. */
  lemma {:induction false} RemoveFirstMultiset(s: seq<nat>, x: nat)
    requires x in s
    ensures multiset(RemoveFirst(s, x)) == multiset(s) - multiset{x}
    decreases |s|
  {
    assert s == [s[0]] + s[1..];
    if s[0] != x {
      RemoveFirstMultiset(s[1..], x);
    }
  }

  /** The list comprehension `[e for e in s if e != x]`. */
  function FilterOut(s: seq<nat>, x: nat): (r: seq<nat>)
    ensures |r| <= |s|
    ensures forall e :: e in r <==> e in s && e != x
  {
    if s == [] then []
    else (if s[0] == x then [] else [s[0]]) + FilterOut(s[1..], x)
  }

  /** Reference definition of "every index below n except i", in order. */
  function Others(n: nat, i: nat): seq<nat>
    requires i < n
  {
    seq(n - 1, k requires 0 <= k < n - 1 => if k < i then k else k + 1)
  }

  /** The list [a, ..., a+m-1] without x, described position by position. */
  predicate SkipsOver(r: seq<nat>, a: nat, m: nat, x: nat)
    requires a <= x < a + m
  {
    |r| == m - 1 && forall k :: 0 <= k < m - 1 ==> r[k] == if k < x - a then a + k else a + k + 1
  }

  lemma {:induction false} RemoveFirstFromInterval(a: nat, m: nat, x: nat)
    requires a <= x < a + m
    ensures x in Interval(a, m)
    ensures SkipsOver(RemoveFirst(Interval(a, m), x), a, m, x)
    decreases m
  {
    var s := Interval(a, m);
    assert s[x - a] == x;
    var r := RemoveFirst(s, x);
    if x == a {
      assert r == s[1..];
    } else {
      var tail := s[1..];
      assert tail == Interval(a + 1, m - 1);
      RemoveFirstFromInterval(a + 1, m - 1, x);
      var rest := RemoveFirst(tail, x);
      assert r == [a] + rest;
      forall k | 0 <= k < m - 1
        ensures r[k] == if k < x - a then a + k else a + k + 1
      {
        if k > 0 {
          assert r[k] == rest[k - 1];
        }
      }
    }
  }

  lemma {:induction false} FilterOutAbsent(s: seq<nat>, x: nat)
    requires x !in s
    ensures FilterOut(s, x) == s
    decreases |s|
  {
    if s != [] {
      FilterOutAbsent(s[1..], x);
      assert s == [s[0]] + s[1..];
    }
  }

  lemma {:induction false} FilterOutOfInterval(a: nat, m: nat, x: nat)
    requires a <= x < a + m
    ensures SkipsOver(FilterOut(Interval(a, m), x), a, m, x)
    decreases m
  {
    var s := Interval(a, m);
    var tail := s[1..];
    assert tail == Interval(a + 1, m - 1);
    if x == a {
      assert x !in tail;
      FilterOutAbsent(tail, x);
      assert FilterOut(s, x) == tail;
    } else {
      FilterOutOfInterval(a + 1, m - 1, x);
      var rest := FilterOut(tail, x);
      assert FilterOut(s, x) == [a] + rest;
    }
  }

  /** `indices = list(range(n)); indices.remove(i)` is the list of the other indices. */
  lemma RemovedIndexList(n: nat, i: nat)
    requires i < n
    ensures i in Interval(0, n)
    ensures RemoveFirst(Interval(0, n), i) == Others(n, i)
  {
    RemoveFirstFromInterval(0, n, i);
    assert SkipsOver(RemoveFirst(Interval(0, n), i), 0, n, i);
  }

  /** `[idx for idx in range(n) if idx != i]` is the list of the other indices. */
  lemma FilteredIndexList(n: nat, i: nat)
    requires i < n
    ensures FilterOut(Interval(0, n), i) == Others(n, i)
  {
    FilterOutOfInterval(0, n, i);
    assert SkipsOver(FilterOut(Interval(0, n), i), 0, n, i);
  }

  /** Three positions drawn without replacement from a list of length n. */
  datatype Picks = Picks(p1: nat, p2: nat, p3: nat)

  predicate ValidPicks(p: Picks, n: int)
  {
    p.p1 < n && p.p2 < n && p.p3 < n && p.p1 != p.p2 && p.p1 != p.p3 && p.p2 != p.p3
  }

  /** The indices r1, r2, r3 of the donor vectors. */
  datatype Donors = Donors(r1: nat, r2: nat, r3: nat)

  /** r1, r2, r3 are valid indices, pairwise distinct and all different from i. */
  predicate DistinctDonors(d: Donors, i: nat, n: nat)
  {
    d.r1 < n && d.r2 < n && d.r3 < n
    && d.r1 != d.r2 && d.r1 != d.r3 && d.r2 != d.r3
    && d.r1 != i && d.r2 != i && d.r3 != i
  }

  /** `np.random.choice(indices, 3, replace=False)` / `random.sample(indices, 3)`
      with the drawn positions given explicitly. */
  function Choose(indices: seq<nat>, p: Picks): (d: Donors)
    requires ValidPicks(p, |indices|)
    ensures d.r1 in indices && d.r2 in indices && d.r3 in indices
  {
    Donors(indices[p.p1], indices[p.p2], indices[p.p3])
  }

  /** Drawing three positions from the list of the other indices gives three
      distinct donors, none of them i. */
  lemma ChooseFromOthers(n: nat, i: nat, p: Picks)
    requires i < n && ValidPicks(p, n - 1)
    ensures DistinctDonors(Choose(Others(n, i), p), i, n)
  {
  }

  // ---------------------------------------------------------------------------
  // DE/rand/1 mutation and per-gene crossover
  // ---------------------------------------------------------------------------

  predicate DonorsFit(pop: seq<Individual>, d: Donors, dims: nat)
  {
    d.r1 < |pop| && d.r2 < |pop| && d.r3 < |pop|
    && |pop[d.r1]| == dims && |pop[d.r2]| == dims && |pop[d.r3]| == dims
  }

  /** The unclipped DE/rand/1 vector `x_r1 + F * (x_r2 - x_r3)`, gene by gene. */
  function DifferenceVector(pop: seq<Individual>, d: Donors, F: real, dims: nat): (v: Individual)
    requires DonorsFit(pop, d, dims)
    ensures |v| == dims
  {
    AddScaledDifference(pop[d.r1], pop[d.r2], pop[d.r3], F, dims)
  }

  /** The first n genes of `a + F * (b - c)`. */
  function AddScaledDifference(a: Individual, b: Individual, c: Individual, F: real, n: nat): (v: Individual)
    requires n <= |a| && |a| == |b| == |c|
    ensures |v| == n
    decreases n
  {
    if n == 0 then []
    else AddScaledDifference(a, b, c, F, n - 1) + [a[n - 1] + F * (b[n - 1] - c[n - 1])]
  }

  /** Gene j of `a + F * (b - c)` is `a[j] + F * (b[j] - c[j])`. */
  lemma {:induction false} AddScaledDifferenceGenes(a: Individual, b: Individual, c: Individual, F: real, n: nat)
    requires n <= |a| && |a| == |b| == |c|
    ensures var v := AddScaledDifference(a, b, c, F, n);
            forall j :: 0 <= j < n ==> v[j] == a[j] + F * (b[j] - c[j])
    decreases n
  {
    if n > 0 {
      AddScaledDifferenceGenes(a, b, c, F, n - 1);
      var rest := AddScaledDifference(a, b, c, F, n - 1);
      assert AddScaledDifference(a, b, c, F, n) == rest + [a[n - 1] + F * (b[n - 1] - c[n - 1])];
    }
  }

  /** The DE/rand/1 vector clipped into the box. */
  function Mutant(pop: seq<Individual>, d: Donors, F: real, bounds: seq<Bound>): (m: Individual)
    requires WellFormed(bounds) && DonorsFit(pop, d, |bounds|)
    ensures InBox(m, bounds)
  {
    ClipToBox(DifferenceVector(pop, d, F, |bounds|), bounds)
  }

  /** Gene j of the mutant is `clip(x_r1[j] + F * (x_r2[j] - x_r3[j]), lo_j, hi_j)`. */
  lemma MutantGenes(pop: seq<Individual>, d: Donors, F: real, bounds: seq<Bound>)
    requires WellFormed(bounds) && DonorsFit(pop, d, |bounds|)
    ensures var m := Mutant(pop, d, F, bounds);
            forall j :: 0 <= j < |m| ==>
              m[j] == Clip(pop[d.r1][j] + F * (pop[d.r2][j] - pop[d.r3][j]), bounds[j].lo, bounds[j].hi)
  {
    var v := DifferenceVector(pop, d, F, |bounds|);
    AddScaledDifferenceGenes(pop[d.r1], pop[d.r2], pop[d.r3], F, |bounds|);
    var m := ClipToBox(v, bounds);
    forall j | 0 <= j < |m|
      ensures m[j] == Clip(pop[d.r1][j] + F * (pop[d.r2][j] - pop[d.r3][j]), bounds[j].lo, bounds[j].hi)
    {
      assert m[j] == Clip(v[j], bounds[j].lo, bounds[j].hi);
      assert v[j] == pop[d.r1][j] + F * (pop[d.r2][j] - pop[d.r3][j]);
    }
  }

  /** The mask `draw < CR`, one draw per gene. */
  function CoinMask(coins: seq<real>, cr: real): (m: seq<bool>)
    ensures |m| == |coins|
    ensures forall j :: 0 <= j < |m| ==> (m[j] <==> coins[j] < cr)
  {
    seq(|coins|, j requires 0 <= j < |coins| => coins[j] < cr)
  }

  /** A copy of the target whose masked genes are taken from the mutant. */
  function Trial(target: Individual, mutant: Individual, mask: seq<bool>): (t: Individual)
    requires |target| == |mutant| == |mask|
    ensures |t| == |target|
  {
    seq(|target|, j requires 0 <= j < |target| => if mask[j] then mutant[j] else target[j])
  }

  /** Every trial gene is the target's or the mutant's gene at that position,
      masked positions come from the mutant, and so the trial of two
      individuals inside the box is inside the box. */
  lemma TrialGenes(target: Individual, mutant: Individual, mask: seq<bool>, bounds: seq<Bound>)
    requires |target| == |mutant| == |mask|
    ensures var t := Trial(target, mutant, mask);
            forall j :: 0 <= j < |t| ==>
              (t[j] == target[j] || t[j] == mutant[j]) &&
              (mask[j] ==> t[j] == mutant[j]) &&
              (!mask[j] ==> t[j] == target[j])
    ensures InBox(target, bounds) && InBox(mutant, bounds) ==> InBox(Trial(target, mutant, mask), bounds)
  {
  }

  // ---------------------------------------------------------------------------
  // Minimum search
  // ---------------------------------------------------------------------------

  /** Python's `min` over a non-empty list of reals. */
  function MinOf(xs: seq<real>): (m: real)
    requires |xs| > 0
    ensures m in xs
    ensures forall k :: 0 <= k < |xs| ==> m <= xs[k]
  {
    MinOfPrefix(xs, |xs|)
  }

  /** The minimum of the first n entries, scanning left to right. */
  function MinOfPrefix(xs: seq<real>, n: nat): (m: real)
    requires 0 < n <= |xs|
    ensures exists k :: 0 <= k < n && xs[k] == m
    ensures forall k :: 0 <= k < n ==> m <= xs[k]
    decreases n
  {
    if n == 1 then xs[0]
    else
      var rest := MinOfPrefix(xs, n - 1);
      if xs[n - 1] < rest then xs[n - 1] else rest
  }

  /** `np.argmin` (and `min(..., key=...)`): the first index holding the minimum. */
  function ArgMin(xs: seq<real>): (k: nat)
    requires |xs| > 0
    ensures k < |xs|
    ensures forall j :: 0 <= j < |xs| ==> xs[k] <= xs[j]
    ensures forall j :: 0 <= j < k ==> xs[k] < xs[j]
  {
    ArgMinPrefix(xs, |xs|)
  }

  /** The first index of a minimum among the first n entries. */
  function ArgMinPrefix(xs: seq<real>, n: nat): (k: nat)
    requires 0 < n <= |xs|
    ensures k < n
    ensures forall j :: 0 <= j < n ==> xs[k] <= xs[j]
    ensures forall j :: 0 <= j < k ==> xs[k] < xs[j]
    decreases n
  {
    if n == 1 then 0
    else
      var k := ArgMinPrefix(xs, n - 1);
      if xs[n - 1] < xs[k] then n - 1 else k
  }

  /** If every entry of xs is at most the entry of ys at the same position,
      the minimum of xs is at most the minimum of ys. */
  lemma MinOfPointwise(xs: seq<real>, ys: seq<real>)
    requires |xs| == |ys| > 0
    requires forall k :: 0 <= k < |xs| ==> xs[k] <= ys[k]
    ensures MinOf(xs) <= MinOf(ys)
  {
    var m := MinOf(ys);
    var k :| 0 <= k < |ys| && ys[k] == m;
    assert MinOf(xs) <= xs[k];
  }

  predicate NonIncreasing(s: seq<real>)
  {
    forall i, j :: 0 <= i <= j < |s| ==> s[j] <= s[i]
  }

  /** Appending a value no larger than the last entry keeps a sequence non-increasing. */
  lemma NonIncreasingAppend(s: seq<real>, x: real)
    requires NonIncreasing(s) && (s != [] ==> x <= s[|s| - 1])
    ensures NonIncreasing(s + [x])
  {
    var t := s + [x];
    forall i, j | 0 <= i <= j < |t|
      ensures t[j] <= t[i]
    {
      if j == |s| && i < |s| {
        assert s[|s| - 1] <= s[i];
      }
    }
  }
}
