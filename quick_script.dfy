/** The steady-state script `ejemplo_rapido.py`: twenty points in the square
    [-10, 10] x [-10, 10] minimising `x0^2 + x1^2` for fifty generations.
    Unlike the class, the script overwrites `poblacion[i]` in place, so a
    slot visited later in a generation draws its donors from a population
    that already holds the replacements made earlier in the same generation.
    The random draws (`np.random.uniform`, `np.random.choice`,
    `np.random.rand`) are parameters. */
module QuickScript {
  import opened Common

  const NP: nat := 20
  const F: real := 0.8
  const CR: real := 0.7
  const Generations: nat := 50
  const Limits: seq<Bound> := [Bound(-10.0, 10.0), Bound(-10.0, 10.0)]

  /** `funcion_objetivo`: `x[0]**2 + x[1]**2`, the sum of squares of the
      script's two genes (lemma `ObjectiveFormula`). */
  function Objective(x: Individual): (r: real)
    ensures r >= 0.0
  {
    SumOfSquares(x, |x|)
  }

  /** The objective is exactly the two-term formula of the script, and it is
      zero at the origin. */
  lemma ObjectiveFormula(x: Individual)
    requires |x| == 2
    ensures Objective(x) == x[0] * x[0] + x[1] * x[1]
    ensures x[0] == 0.0 && x[1] == 0.0 ==> Objective(x) == 0.0
  {
    assert SumOfSquares(x, 1) == x[0] * x[0];
  }

  /** A population of the script: at least four points of the square (three
      donors besides the target), two genes each. */
  predicate Points(pop: seq<Individual>)
  {
    |pop| >= 4 && PopulationInBox(pop, Limits)
  }

  /** The list comprehension `[f(ind) for ind in poblacion]`. */
  function Fitnesses(f: Individual -> real, pop: seq<Individual>): (fs: seq<real>)
    ensures |fs| == |pop|
    ensures forall k {:trigger fs[k]} :: 0 <= k < |pop| ==> fs[k] == f(pop[k])
  {
    FitnessPrefix(f, pop, |pop|)
  }

  /** The fitness of the first n individuals. */
  function FitnessPrefix(f: Individual -> real, pop: seq<Individual>, n: nat): (fs: seq<real>)
    requires n <= |pop|
    ensures |fs| == n
    ensures forall k {:trigger fs[k]} :: 0 <= k < n ==> fs[k] == f(pop[k])
    decreases n
  {
    if n == 0 then [] else FitnessPrefix(f, pop, n - 1) + [f(pop[n - 1])]
  }

  // ---------------------------------------------------------------------------
  // One slot of the inner loop
  // ---------------------------------------------------------------------------

  /** The draws consumed by slot i: three positions into `indices` for
      `np.random.choice(indices, 3, replace=False)` and one `np.random.rand()`
      per gene. */
  datatype SlotDraw = SlotDraw(picks: Picks, coins: seq<real>)

  predicate ValidSlotDraw(s: SlotDraw, n: nat)
  {
    ValidPicks(s.picks, n - 1) && |s.coins| == 2
    && forall j :: 0 <= j < 2 ==> 0.0 <= s.coins[j] < 1.0
  }

  predicate ValidGenerationDraws(ds: seq<SlotDraw>, n: nat)
  {
    |ds| == n && forall k :: 0 <= k < n ==> ValidSlotDraw(ds[k], n)
  }

  predicate ValidRunDraws(gds: seq<seq<SlotDraw>>, n: nat)
  {
    forall g :: 0 <= g < |gds| ==> ValidGenerationDraws(gds[g], n)
  }

  /** Three distinct entries of `indices = [idx for idx in range(NP) if idx != i]`,
      the list `Others(n, i)` (lemma `FilteredIndexList`). */
  function DonorsFor(n: nat, i: nat, picks: Picks): (d: Donors)
    requires i < n && ValidPicks(picks, n - 1)
    ensures DistinctDonors(d, i, n)
  {
    ChooseFromOthers(n, i, picks);
    Choose(Others(n, i), picks)
  }

  /** The trial of slot i: the clipped mutant, then gene j taken from it when
      its draw is below CR. No gene is forced. */
  function Offspring(pop: seq<Individual>, i: nat, s: SlotDraw): (t: Individual)
    requires Points(pop) && i < |pop| && ValidSlotDraw(s, |pop|)
    ensures InBox(t, Limits)
  {
    var m := Mutant(pop, DonorsFor(|pop|, i, s.picks), F, Limits);
    TrialGenes(pop[i], m, CoinMask(s.coins, CR), Limits);
    Trial(pop[i], m, CoinMask(s.coins, CR))
  }

  /** Each trial gene is the mutant's when its draw is below CR and the
      target's otherwise; with every draw at or above CR the trial is the
      target itself. */
  lemma OffspringGenes(pop: seq<Individual>, i: nat, s: SlotDraw)
    requires Points(pop) && i < |pop| && ValidSlotDraw(s, |pop|)
    ensures var m := Mutant(pop, DonorsFor(|pop|, i, s.picks), F, Limits);
            var t := Offspring(pop, i, s);
            forall j :: 0 <= j < 2 ==> t[j] == (if s.coins[j] < CR then m[j] else pop[i][j])
    ensures s.coins[0] >= CR && s.coins[1] >= CR ==> Offspring(pop, i, s) == pop[i]
  {
    var m := Mutant(pop, DonorsFor(|pop|, i, s.picks), F, Limits);
    var t := Offspring(pop, i, s);
    assert t == Trial(pop[i], m, CoinMask(s.coins, CR));
    if s.coins[0] >= CR && s.coins[1] >= CR {
      assert t[0] == pop[i][0] && t[1] == pop[i][1];
    }
  }

  /** What produces the trial of slot i from the current population. The
      generation loop is stated over any breeder that stays in the square;
      the script's own breeder is `Breeding()`. */
  type Breeder = (seq<Individual>, nat, SlotDraw) --> Individual

  ghost predicate Breeds(breed: Breeder)
  {
    forall pop: seq<Individual>, i: nat, s: SlotDraw {:trigger breed.requires(pop, i, s)} {:trigger breed(pop, i, s)} ::
      Points(pop) && i < |pop| && ValidSlotDraw(s, |pop|) ==>
      breed.requires(pop, i, s) && InBox(breed(pop, i, s), Limits)
  }

  /** Mutation and crossover as the script performs them. */
  function Breeding(): (breed: Breeder)
    ensures Breeds(breed)
  {
    (pop: seq<Individual>, i: nat, s: SlotDraw) requires Points(pop) && i < |pop| && ValidSlotDraw(s, |pop|) => Offspring(pop, i, s)
  }

  /** Slot i of the inner loop: `poblacion[i] = trial` when
      `f(trial) < f(poblacion[i])`, otherwise nothing. */
  function StepSpec(f: Individual -> real, breed: Breeder, pop: seq<Individual>, i: nat, s: SlotDraw): (next: seq<Individual>)
    requires Breeds(breed) && Points(pop) && i < |pop| && ValidSlotDraw(s, |pop|)
    ensures Points(next) && |next| == |pop|
    ensures var t := breed(pop, i, s);
            (f(t) < f(pop[i]) ==> next == pop[i := t])
            && (f(pop[i]) <= f(t) ==> next == pop)
    ensures f(next[i]) <= f(pop[i])
  {
    var t := breed(pop, i, s);
    if f(t) < f(pop[i]) then pop[i := t] else pop
  }

  /** The first n slots of one generation, in order; slot k works on the
      population that slots 0..k-1 have already updated. */
  function Sweep(f: Individual -> real, breed: Breeder, pop: seq<Individual>, ds: seq<SlotDraw>, n: nat): (r: seq<Individual>)
    requires Breeds(breed) && Points(pop) && ValidGenerationDraws(ds, |pop|) && n <= |pop|
    ensures Points(r) && |r| == |pop|
    decreases n
  {
    if n == 0 then pop else StepSpec(f, breed, Sweep(f, breed, pop, ds, n - 1), n - 1, ds[n - 1])
  }

  /** Slot by slot, `next` holds individuals no worse under `f` than `prev`. */
  predicate NoWorse(f: Individual -> real, next: seq<Individual>, prev: seq<Individual>)
  {
    |next| == |prev| && forall k {:trigger next[k]} :: 0 <= k < |prev| ==> f(next[k]) <= f(prev[k])
  }

  /** After the first n slots no slot holds a worse individual than before,
      and the slots from n on are still untouched. */
  lemma {:induction false} SweepSlots(f: Individual -> real, breed: Breeder, pop: seq<Individual>, ds: seq<SlotDraw>, n: nat)
    requires Breeds(breed) && Points(pop) && ValidGenerationDraws(ds, |pop|) && n <= |pop|
    ensures var r := Sweep(f, breed, pop, ds, n);
            NoWorse(f, r, pop) && (forall k {:trigger r[k]} :: n <= k < |pop| ==> r[k] == pop[k])
    decreases n
  {
    if n > 0 {
      SweepSlots(f, breed, pop, ds, n - 1);
      var prev := Sweep(f, breed, pop, ds, n - 1);
      var r := Sweep(f, breed, pop, ds, n);
      assert r == StepSpec(f, breed, prev, n - 1, ds[n - 1]);
      forall k | 0 <= k < |pop| && k != n - 1
        ensures r[k] == prev[k]
      {
      }
    }
  }

  // ---------------------------------------------------------------------------
  // The generation loop
  // ---------------------------------------------------------------------------

  /** The population and `mejor_fitness_historico` after some generations. */
  datatype State = State(population: seq<Individual>, history: seq<real>)

  /** A sweep never raises the minimum fitness of the population. */
  lemma SweepLowersMinimum(f: Individual -> real, breed: Breeder, pop: seq<Individual>, ds: seq<SlotDraw>, n: nat)
    requires Breeds(breed) && Points(pop) && ValidGenerationDraws(ds, |pop|) && n <= |pop|
    ensures MinOf(Fitnesses(f, Sweep(f, breed, pop, ds, n))) <= MinOf(Fitnesses(f, pop))
  {
    SweepSlots(f, breed, pop, ds, n);
    var after := Fitnesses(f, Sweep(f, breed, pop, ds, n));
    var before := Fitnesses(f, pop);
    assert forall k :: 0 <= k < |after| ==> after[k] <= before[k];
    MinOfPointwise(after, before);
  }

  /** g generations from `pop0`: a full sweep, then the minimum fitness of the
      swept population appended to the history, so the history has one entry
      per generation and its last entry is the current minimum. */
  function Evolution(f: Individual -> real, breed: Breeder, pop0: seq<Individual>, gds: seq<seq<SlotDraw>>, g: nat): (s: State)
    requires Breeds(breed) && Points(pop0) && ValidRunDraws(gds, |pop0|) && g <= |gds|
    ensures Points(s.population) && |s.population| == |pop0|
    ensures |s.history| == g
    ensures g > 0 ==> s.history[g - 1] == MinOf(Fitnesses(f, s.population))
    decreases g
  {
    if g == 0 then State(pop0, [])
    else
      var prev := Evolution(f, breed, pop0, gds, g - 1);
      var next := Sweep(f, breed, prev.population, gds[g - 1], |prev.population|);
      State(next, prev.history + [MinOf(Fitnesses(f, next))])
  }

  /** One generation: no slot's fitness goes up from generation g-1 to g. */
  lemma GenerationSlots(f: Individual -> real, breed: Breeder, pop0: seq<Individual>, gds: seq<seq<SlotDraw>>, g: nat)
    requires Breeds(breed) && Points(pop0) && ValidRunDraws(gds, |pop0|) && 0 < g <= |gds|
    ensures var prev := Evolution(f, breed, pop0, gds, g - 1).population;
            var next := Evolution(f, breed, pop0, gds, g).population;
            NoWorse(f, next, prev)
  {
    var prev := Evolution(f, breed, pop0, gds, g - 1).population;
    SweepSlots(f, breed, prev, gds[g - 1], |prev|);
  }

  /** The fitness stored in each slot never goes up over the run. */
  lemma {:induction false} SlotsNeverWorsen(f: Individual -> real, breed: Breeder, pop0: seq<Individual>, gds: seq<seq<SlotDraw>>, g: nat)
    requires Breeds(breed) && Points(pop0) && ValidRunDraws(gds, |pop0|) && g <= |gds|
    ensures var s := Evolution(f, breed, pop0, gds, g);
            NoWorse(f, s.population, pop0)
    decreases g
  {
    if g > 0 {
      SlotsNeverWorsen(f, breed, pop0, gds, g - 1);
      GenerationSlots(f, breed, pop0, gds, g);
    }
  }

  /** The recorded minimum never goes up from one generation to the next. */
  lemma {:induction false} HistoryNonIncreasing(f: Individual -> real, breed: Breeder, pop0: seq<Individual>, gds: seq<seq<SlotDraw>>, g: nat)
    requires Breeds(breed) && Points(pop0) && ValidRunDraws(gds, |pop0|) && g <= |gds|
    ensures NonIncreasing(Evolution(f, breed, pop0, gds, g).history)
    decreases g
  {
    if g > 0 {
      HistoryNonIncreasing(f, breed, pop0, gds, g - 1);
      var prev := Evolution(f, breed, pop0, gds, g - 1);
      var entry := MinOf(Fitnesses(f, Sweep(f, breed, prev.population, gds[g - 1], |prev.population|)));
      if g > 1 {
        SweepLowersMinimum(f, breed, prev.population, gds[g - 1], |prev.population|);
      }
      NonIncreasingAppend(prev.history, entry);
    }
  }

  // ---------------------------------------------------------------------------
  // The script, imperatively
  // ---------------------------------------------------------------------------

  /** `trial = np.copy(poblacion[i])`, then `trial[j] = mutante[j]` for every
      gene whose draw is below CR. */
  method Cross(target: Individual, mutant: Individual, coins: seq<real>) returns (trial: Individual)
    requires |target| == |mutant| == |coins|
    ensures trial == Trial(target, mutant, CoinMask(coins, CR))
  {
    var buffer := new real[|target|](k requires 0 <= k < |target| => target[k]);
    for j := 0 to |target|
      invariant forall k :: 0 <= k < |target| ==> buffer[k] == if k < j && coins[k] < CR then mutant[k] else target[k]
    {
      if coins[j] < CR {
        buffer[j] := mutant[j];
      }
    }
    trial := buffer[..];
  }

  /** The body of `for i in range(NP)`: donors, clipped mutant, crossover and
      the strict in-place replacement. */
  method Step(f: Individual -> real, pop: array<Individual>, i: nat, s: SlotDraw)
    requires Points(pop[..]) && i < pop.Length && ValidSlotDraw(s, pop.Length)
    modifies pop
    ensures pop[..] == StepSpec(f, Breeding(), old(pop[..]), i, s)
  {
    var indices := FilterOut(Interval(0, pop.Length), i);
    FilteredIndexList(pop.Length, i);
    var d := Choose(indices, s.picks);
    var mutant := Mutant(pop[..], d, F, Limits);
    var trial := Cross(pop[i], mutant, s.coins);
    if f(trial) < f(pop[i]) {
      pop[i] := trial;
    }
  }

  /** Slot i of a pass that started from `start`: after it the array holds
      the first i + 1 slots of the pass. */
  method SweepSlot(f: Individual -> real, pop: array<Individual>, ghost start: seq<Individual>, ds: seq<SlotDraw>, i: nat)
    requires Points(start) && ValidGenerationDraws(ds, |start|) && i < |start|
    requires pop[..] == Sweep(f, Breeding(), start, ds, i)
    modifies pop
    ensures pop[..] == Sweep(f, Breeding(), start, ds, i + 1)
  {
    Step(f, pop, i, ds[i]);
  }

  /** One pass of `for i in range(NP)`: the slots in order, each one seeing
      the replacements made before it. */
  method SweepInPlace(f: Individual -> real, pop: array<Individual>, ds: seq<SlotDraw>)
    requires Points(pop[..]) && ValidGenerationDraws(ds, pop.Length)
    modifies pop
    ensures pop[..] == Sweep(f, Breeding(), old(pop[..]), ds, pop.Length)
  {
    for i := 0 to pop.Length
      invariant pop[..] == Sweep(f, Breeding(), old(pop[..]), ds, i)
    {
      SweepSlot(f, pop, old(pop[..]), ds, i);
    }
  }

  /** The `for gen` loop: a pass over the slots, then
      `min([f(ind) for ind in poblacion])` appended to the history. */
  method Evolve(f: Individual -> real, pop: array<Individual>, gds: seq<seq<SlotDraw>>) returns (history: seq<real>)
    requires Points(pop[..]) && ValidRunDraws(gds, pop.Length)
    modifies pop
    ensures var s := Evolution(f, Breeding(), old(pop[..]), gds, |gds|);
            pop[..] == s.population && history == s.history
  {
    ghost var pop0 := pop[..];
    history := [];
    for gen := 0 to |gds|
      invariant State(pop[..], history) == Evolution(f, Breeding(), pop0, gds, gen)
    {
      SweepInPlace(f, pop, gds[gen]);
      history := history + [MinOf(Fitnesses(f, pop[..]))];
    }
  }

  /** The final block: `fitness_final`, `np.argmin` over it, and the
      individual and value at that index. The index is the first one holding
      the least fitness. */
  method BestOf(f: Individual -> real, pop: array<Individual>) returns (bestIndex: nat, best: Individual, bestValue: real)
    requires pop.Length > 0
    ensures bestIndex < pop.Length && best == pop[bestIndex]
    ensures bestValue == f(best) == MinOf(Fitnesses(f, pop[..]))
    ensures forall j :: 0 <= j < bestIndex ==> bestValue < f(pop[j])
  {
    var fitness := Fitnesses(f, pop[..]);
    bestIndex := ArgMin(fitness);
    assert forall j :: 0 <= j < bestIndex ==> fitness[j] == f(pop[j]);
    best := pop[bestIndex];
    bestValue := fitness[bestIndex];
  }

  /** `np.random.uniform(-10, 10, (NP, 2))`: a fresh array holding the
      initial population drawn from `u`. */
  method Populate(u: seq<seq<real>>) returns (pop: array<Individual>)
    requires UnitDraws(u, NP, 2)
    ensures fresh(pop) && pop[..] == InitialPopulation(Limits, |u|, u)
  {
    var init := InitialPopulation(Limits, |u|, u);
    pop := new Individual[|u|](k requires 0 <= k < |u| => init[k]);
    assert pop[..] == init;
  }

  /** The generation loop and the final `np.argmin` on a given population:
      `mejor_valor` is the minimum final fitness, the value of `mejor_solucion`
      and the last history entry; the history has one entry per generation and
      never goes up. */
  method Optimize(f: Individual -> real, pop: array<Individual>, gds: seq<seq<SlotDraw>>) returns (history: seq<real>, best: Individual, bestValue: real)
    requires Points(pop[..]) && ValidRunDraws(gds, pop.Length) && |gds| > 0
    modifies pop
    ensures var s := Evolution(f, Breeding(), old(pop[..]), gds, |gds|);
            pop[..] == s.population && history == s.history
            && best in s.population && bestValue == f(best) == MinOf(Fitnesses(f, s.population))
    ensures |history| == |gds| && NonIncreasing(history)
    ensures bestValue == history[|history| - 1]
    ensures InBox(best, Limits)
  {
    ghost var pop0 := pop[..];
    history := Evolve(f, pop, gds);
    HistoryNonIncreasing(f, Breeding(), pop0, gds, |gds|);
    var bestIndex;
    bestIndex, best, bestValue := BestOf(f, pop);
  }

  /** The whole script for an objective `f`: `np.random.uniform(-10, 10, (NP, 2))`,
      then `Optimize`. */
  method Minimize(f: Individual -> real, u: seq<seq<real>>, gds: seq<seq<SlotDraw>>) returns (history: seq<real>, best: Individual, bestValue: real)
    requires UnitDraws(u, NP, 2) && ValidRunDraws(gds, |u|) && |gds| > 0
    ensures var s := Evolution(f, Breeding(), InitialPopulation(Limits, |u|, u), gds, |gds|);
            history == s.history
            && best in s.population && bestValue == f(best) == MinOf(Fitnesses(f, s.population))
    ensures |history| == |gds| && NonIncreasing(history)
    ensures bestValue == history[|history| - 1]
    ensures InBox(best, Limits)
  {
    var pop := Populate(u);
    history, best, bestValue := Optimize(f, pop, gds);
  }

  /** The script as written: `Minimize` on `x[0]**2 + x[1]**2` for
      `generaciones = 50` generations. */
  method Script(u: seq<seq<real>>, gds: seq<seq<SlotDraw>>) returns (history: seq<real>, best: Individual, bestValue: real)
    requires UnitDraws(u, NP, 2) && |gds| == Generations && ValidRunDraws(gds, |u|)
    ensures var s := Evolution(Objective, Breeding(), InitialPopulation(Limits, |u|, u), gds, |gds|);
            history == s.history
            && best in s.population && bestValue == Objective(best) == MinOf(Fitnesses(Objective, s.population))
    ensures |history| == |gds| && NonIncreasing(history)
    ensures bestValue == history[|history| - 1]
    ensures InBox(best, Limits) && bestValue >= 0.0
  {
    history, best, bestValue := Minimize(Objective, u, gds);
  }
}
