/** The class-based generational optimiser `EvolucionDiferencial`
    (DE/rand/1 with binomial crossover and greedy selection).

    Every random draw is a parameter: the uniform draws of the initial
    population, the three positions drawn for the donors, the per-gene
    crossover draws and the gene forced into the trial. The objective is a
    parameter of type `Individual -> real`; `Sphere` is the concrete instance. */
module Generational {
  import opened Common

  /** `funcion_esfera`: the sum of the squared genes. */
  function Sphere(x: Individual): (r: real)
    ensures r >= 0.0
  {
    SumOfSquares(x, |x|)
  }

  /** The sphere is zero at the origin, its global minimum. */
  lemma SphereZeroAtOrigin(x: Individual)
    requires forall d :: 0 <= d < |x| ==> x[d] == 0.0
    ensures Sphere(x) == 0.0
  {
    SumOfSquaresZero(x, |x|);
  }

  // ---------------------------------------------------------------------------
  // mutar
  // ---------------------------------------------------------------------------

  /** The donors of `mutar`: `indices = list(range(n))`, `indices.remove(i)`,
      then three positions drawn without replacement. */
  function MutationDonors(n: nat, i: nat, picks: Picks): (d: Donors)
    requires i < n && ValidPicks(picks, n - 1)
    ensures DistinctDonors(d, i, n)
  {
    RemovedIndexList(n, i);
    ChooseFromOthers(n, i, picks);
    Choose(RemoveFirst(Interval(0, n), i), picks)
  }

  /** `mutar`: the DE/rand/1 vector of the donors, clipped into the box. */
  function Mutate(pop: seq<Individual>, i: nat, picks: Picks, F: real, bounds: seq<Bound>): (m: Individual)
    requires WellFormed(bounds) && Shaped(pop, |bounds|)
    requires i < |pop| && ValidPicks(picks, |pop| - 1)
    ensures InBox(m, bounds)
  {
    Mutant(pop, MutationDonors(|pop|, i, picks), F, bounds)
  }

  // ---------------------------------------------------------------------------
  // cruzar
  // ---------------------------------------------------------------------------

  /** The crossover mask of `cruzar`: `draw < CR` per gene, and when no gene
      is set the gene at `forced` is set. */
  function CrossoverMask(coins: seq<real>, cr: real, forced: nat): (m: seq<bool>)
    requires forced < |coins|
    ensures |m| == |coins|
    ensures exists j :: 0 <= j < |m| && m[j]
    ensures forall j :: 0 <= j < |m| && coins[j] < cr ==> m[j]
    ensures forall j :: 0 <= j < |m| && m[j] && j != forced ==> coins[j] < cr
    ensures (exists j :: 0 <= j < |coins| && coins[j] < cr) ==> m == CoinMask(coins, cr)
  {
    var drawn := CoinMask(coins, cr);
    if true in drawn then drawn
    else
      var m := drawn[forced := true];
      assert m[forced];
      m
  }

  /** `cruzar`: copies the target into a fresh buffer and overwrites the
      masked genes with the mutant's. */
  method Crossover(target: Individual, mutant: Individual, coins: seq<real>, cr: real, forced: nat)
    returns (trial: Individual)
    requires |target| == |mutant| == |coins| && forced < |coins|
    ensures trial == Trial(target, mutant, CrossoverMask(coins, cr, forced))
    ensures exists j :: 0 <= j < |trial| && trial[j] == mutant[j]
  {
    var mask := CrossoverMask(coins, cr, forced);
    var buffer := new real[|target|](k requires 0 <= k < |target| => target[k]);
    for d := 0 to |target|
      invariant forall k :: 0 <= k < |target| ==> buffer[k] == if k < d && mask[k] then mutant[k] else target[k]
    {
      if mask[d] {
        buffer[d] := mutant[d];
      }
    }
    trial := buffer[..];
    var j :| 0 <= j < |mask| && mask[j];
    assert trial[j] == mutant[j];
  }

  /** At least one gene of the trial comes from the mutant, so a mutant that
      differs from the target in every gene gives a trial different from the target. */
  lemma CrossoverTakesFromMutant(target: Individual, mutant: Individual, coins: seq<real>, cr: real, forced: nat)
    requires |target| == |mutant| == |coins| && forced < |coins|
    ensures var t := Trial(target, mutant, CrossoverMask(coins, cr, forced));
            exists j :: 0 <= j < |t| && t[j] == mutant[j]
    ensures (forall j :: 0 <= j < |target| ==> target[j] != mutant[j])
            ==> Trial(target, mutant, CrossoverMask(coins, cr, forced)) != target
  {
    var m := CrossoverMask(coins, cr, forced);
    var j :| 0 <= j < |m| && m[j];
    assert Trial(target, mutant, m)[j] == mutant[j];
  }

  /** A mutant that differs from the target in only some genes can still give
      a trial equal to the target: the mask may select only genes where the two agree. */
  lemma CrossoverMayReturnTarget()
    ensures Trial([0.0, 0.0], [0.0, 1.0], CrossoverMask([0.0, 0.9], 0.7, 0)) == [0.0, 0.0]
  {
    var m := CrossoverMask([0.0, 0.9], 0.7, 0);
    assert m[0] && !m[1];
  }

  // ---------------------------------------------------------------------------
  // seleccionar
  // ---------------------------------------------------------------------------

  datatype Selection = Selection(individual: Individual, fitness: real)

  /** `seleccionar`: greedy selection, a tie goes to the trial. */
  function Select(f: Individual -> real, target: Individual, trial: Individual): (s: Selection)
    ensures s.fitness == f(s.individual)
    ensures s.fitness <= f(target) && s.fitness <= f(trial)
    ensures f(trial) <= f(target) ==> s.individual == trial
    ensures f(trial) > f(target) ==> s.individual == target
  {
    var fitnessTarget := f(target);
    var fitnessTrial := f(trial);
    if fitnessTrial <= fitnessTarget then Selection(trial, fitnessTrial)
    else Selection(target, fitnessTarget)
  }

  // ---------------------------------------------------------------------------
  // The best-so-far record
  // ---------------------------------------------------------------------------

  /** `mejor_solucion` / `mejor_fitness`; `Unset` stands for the initial
      `None` / `np.inf`. */
  datatype BestRecord = Unset | Record(solution: Individual, fitness: real)

  /** The record describes a point of the box and its true fitness. */
  predicate Consistent(f: Individual -> real, b: BestRecord, bounds: seq<Bound>)
  {
    b.Record? ==> f(b.solution) == b.fitness && InBox(b.solution, bounds)
  }

  /** A selection is scored truthfully: a point of the box with its true fitness. */
  predicate Scored(f: Individual -> real, bounds: seq<Bound>, s: Selection)
  {
    Consistent(f, Record(s.individual, s.fitness), bounds)
  }

  /** The update `if fitness < self.mejor_fitness`: the record changes only
      on a strict improvement. */
  function Improve(b: BestRecord, x: Individual, fx: real): (r: BestRecord)
    ensures r.Record? && r.fitness <= fx
    ensures b.Record? ==> r.fitness <= b.fitness
    ensures (b.Unset? || fx < b.fitness) ==> r == Record(x, fx)
    ensures b.Record? && b.fitness <= fx ==> r == b
  {
    if b.Unset? || fx < b.fitness then Record(x, fx) else b
  }

  // ---------------------------------------------------------------------------
  // Generations
  // ---------------------------------------------------------------------------

  /** The fixed parameters of an optimiser. */
  datatype Config = Config(objective: Individual -> real, bounds: seq<Bound>, popSize: nat, F: real, CR: real)

  /** The assumptions the code relies on: bounds well formed and at least four
      individuals, so that three donors other than the target exist. */
  predicate ValidConfig(c: Config)
  {
    WellFormed(c.bounds) && c.popSize >= 4
  }

  /** The draws consumed by one individual in one generation. */
  datatype SlotDraw = SlotDraw(picks: Picks, coins: seq<real>, forced: nat)

  predicate ValidSlotDraw(c: Config, s: SlotDraw)
  {
    ValidPicks(s.picks, c.popSize - 1) && |s.coins| == |c.bounds| && s.forced < |c.bounds|
  }

  predicate ValidGenerationDraws(c: Config, ds: seq<SlotDraw>)
  {
    |ds| == c.popSize && forall i :: 0 <= i < |ds| ==> ValidSlotDraw(c, ds[i])
  }

  predicate ValidRunDraws(c: Config, gds: seq<seq<SlotDraw>>)
  {
    forall g :: 0 <= g < |gds| ==> ValidGenerationDraws(c, gds[g])
  }

  predicate ValidPopulation(c: Config, pop: seq<Individual>)
  {
    |pop| == c.popSize && PopulationInBox(pop, c.bounds)
  }

  /** Mutation, crossover and selection for slot i, read from the snapshot `pop` only. */
  function Offspring(c: Config, pop: seq<Individual>, i: nat, s: SlotDraw): (o: Selection)
    requires ValidConfig(c) && ValidPopulation(c, pop) && i < |pop| && ValidSlotDraw(c, s)
    ensures InBox(o.individual, c.bounds)
    ensures o.fitness == c.objective(o.individual) && o.fitness <= c.objective(pop[i])
  {
    var mutant := Mutate(pop, i, s.picks, c.F, c.bounds);
    var trial := Trial(pop[i], mutant, CrossoverMask(s.coins, c.CR, s.forced));
    TrialGenes(pop[i], mutant, CrossoverMask(s.coins, c.CR, s.forced), c.bounds);
    Select(c.objective, pop[i], trial)
  }

  /** The pairs `seleccionar` returns for slots 0..n-1 of one generation,
      each computed from the snapshot `pop` only: every winner is a point of
      the box with its true fitness, no worse than the snapshot's slot. */
  function Winners(c: Config, pop: seq<Individual>, ds: seq<SlotDraw>, n: nat): (w: seq<Selection>)
    requires ValidConfig(c) && ValidPopulation(c, pop) && ValidGenerationDraws(c, ds) && n <= |pop|
    ensures |w| == n
    ensures forall k {:trigger w[k]} :: 0 <= k < n ==> Scored(c.objective, c.bounds, w[k]) && w[k].fitness <= c.objective(pop[k])
  {
    if n == 0 then []
    else Winners(c, pop, ds, n - 1) + [Offspring(c, pop, n - 1, ds[n - 1])]
  }

  /** The state of the inner loop of `optimizar` after some slots: the
      individuals placed in `nueva_poblacion` so far and the record. */
  datatype Progress = Progress(bred: seq<Individual>, best: BestRecord)

  /** The inner loop over the winners w: each is placed in
      `nueva_poblacion` in slot order and offered to the record b with its
      fitness. */
  function Fill(b: BestRecord, w: seq<Selection>): (p: Progress)
    ensures |p.bred| == |w|
    decreases |w|
  {
    if w == [] then Progress([], b)
    else
      var p := Fill(b, w[..|w| - 1]);
      var s := w[|w| - 1];
      Progress(p.bred + [s.individual], Improve(p.best, s.individual, s.fitness))
  }

  /** Slot k of `nueva_poblacion` holds the winner of slot k. */
  lemma {:induction false} FillSlots(b: BestRecord, w: seq<Selection>)
    ensures forall k :: 0 <= k < |w| ==> Fill(b, w).bred[k] == w[k].individual
    decreases |w|
  {
    if w != [] {
      FillSlots(b, w[..|w| - 1]);
    }
  }

  /** Offering the winners sets the record once any slot is done, never
      makes it worse, leaves it at most the fitness of every winner offered,
      only ever replaces it by one of those winners, and so keeps a
      consistent record consistent when the winners are scored truthfully. */
  lemma {:induction false} FillFacts(f: Individual -> real, bounds: seq<Bound>, b: BestRecord, w: seq<Selection>)
    ensures var p := Fill(b, w);
            && ((w != [] || b.Record?) ==> p.best.Record?)
            && (b.Record? ==> p.best.fitness <= b.fitness)
            && (p.best.Record? ==> forall k :: 0 <= k < |w| ==> p.best.fitness <= w[k].fitness)
            && (p.best == b || exists k :: 0 <= k < |w| && p.best == Record(w[k].individual, w[k].fitness))
            && (Consistent(f, b, bounds) && (forall k :: 0 <= k < |w| ==> Scored(f, bounds, w[k]))
                ==> Consistent(f, p.best, bounds))
    decreases |w|
  {
    if w != [] {
      var front := w[..|w| - 1];
      FillFacts(f, bounds, b, front);
      assert forall k :: 0 <= k < |front| ==> front[k] == w[k];
    }
  }

  /** Placing the winner of slot i extends the buffer by it and offers it,
      with its fitness, to the record. */
  lemma FillNext(c: Config, pop: seq<Individual>, ds: seq<SlotDraw>, b: BestRecord, i: nat)
    requires ValidConfig(c) && ValidPopulation(c, pop) && ValidGenerationDraws(c, ds) && i < |pop|
    ensures var p := Fill(b, Winners(c, pop, ds, i));
            var s := Offspring(c, pop, i, ds[i]);
            Fill(b, Winners(c, pop, ds, i + 1)) == Progress(p.bred + [s.individual], Improve(p.best, s.individual, s.fitness))
  {
    var w := Winners(c, pop, ds, i + 1);
    assert w[..|w| - 1] == Winners(c, pop, ds, i);
  }

  /** Winners w are good for the snapshot pop: one per slot, each a point of
      the box with its true fitness and no worse than the snapshot's slot. */
  predicate GoodWinners(c: Config, pop: seq<Individual>, w: seq<Selection>)
  {
    |w| == |pop| && forall k :: 0 <= k < |w| ==> Scored(c.objective, c.bounds, w[k]) && w[k].fitness <= c.objective(pop[k])
  }

  /** A breeding step: from the snapshot of a generation and its draws, the
      pair `seleccionar` returned for every slot. */
  type Breeder = (seq<Individual>, seq<SlotDraw>) --> seq<Selection>

  /** The breeder applies to every valid snapshot and gives good winners. */
  ghost predicate Breeds(c: Config, breed: Breeder)
  {
    forall pop, ds {:trigger breed.requires(pop, ds)} {:trigger breed(pop, ds)} ::
      ValidPopulation(c, pop) && ValidGenerationDraws(c, ds) ==>
      breed.requires(pop, ds) && GoodWinners(c, pop, breed(pop, ds))
  }

  /** The inner loop of `optimizar` is a breeder. */
  function InnerLoop(c: Config): (breed: Breeder)
    requires ValidConfig(c)
    ensures Breeds(c, breed)
  {
    (pop, ds) requires ValidConfig(c) && ValidPopulation(c, pop) && ValidGenerationDraws(c, ds) => Winners(c, pop, ds, |pop|)
  }

  /** Population, best record and new history entries after some generations. */
  datatype Outcome = Outcome(population: seq<Individual>, best: BestRecord, entries: seq<real>)

  /** One iteration of the generation loop of `optimizar`, given the winners
      w of its slots: they become the population, each is offered to the
      record, and the record's fitness is appended to the history. The
      record ends at least as good as before, as every member of the new
      population and as every slot of the snapshot. */
  function Generation(c: Config, prev: Outcome, w: seq<Selection>): (o: Outcome)
    requires ValidConfig(c) && ValidPopulation(c, prev.population) && GoodWinners(c, prev.population, w)
    ensures ValidPopulation(c, o.population)
    ensures o.best.Record? && o.entries == prev.entries + [o.best.fitness]
    ensures prev.best.Record? ==> o.best.fitness <= prev.best.fitness
    ensures forall k :: 0 <= k < |o.population| ==> o.best.fitness <= c.objective(o.population[k])
    ensures forall k :: 0 <= k < |o.population| ==> c.objective(o.population[k]) <= c.objective(prev.population[k])
    ensures Consistent(c.objective, prev.best, c.bounds) ==> Consistent(c.objective, o.best, c.bounds)
  {
    var p := Fill(prev.best, w);
    FillSlots(prev.best, w);
    FillFacts(c.objective, c.bounds, prev.best, w);
    Outcome(p.bred, p.best, prev.entries + [p.best.fitness])
  }

  /** The history never increases and ends with the record's fitness. */
  predicate Tracks(best: BestRecord, history: seq<real>)
  {
    NonIncreasing(history) && (history != [] ==> best.Record? && history[|history| - 1] == best.fitness)
  }

  /** g generations of `optimizar` from the state `start`, each bred by
      `breed` from the previous population: one history entry is appended
      per generation, the best fitness after it. */
  function Run(c: Config, breed: Breeder, start: Outcome, gds: seq<seq<SlotDraw>>, g: nat): (o: Outcome)
    requires ValidConfig(c) && Breeds(c, breed) && ValidPopulation(c, start.population) && g <= |gds| && ValidRunDraws(c, gds)
    ensures ValidPopulation(c, o.population)
    ensures |o.entries| == |start.entries| + g
    ensures g > 0 ==> o.best.Record? && o.entries[|o.entries| - 1] == o.best.fitness
    decreases g
  {
    if g == 0 then start
    else
      var prev := Run(c, breed, start, gds, g - 1);
      Generation(c, prev, breed(prev.population, gds[g - 1]))
  }

  /** One more generation of `optimizar` is what the inner loop leaves
      behind after breeding from the current population, with the record's
      fitness appended to the entries. */
  lemma RunStep(c: Config, start: Outcome, gds: seq<seq<SlotDraw>>, g: nat)
    requires ValidConfig(c) && ValidPopulation(c, start.population) && g < |gds| && ValidRunDraws(c, gds)
    ensures var o := Run(c, InnerLoop(c), start, gds, g);
            var p := Fill(o.best, Winners(c, o.population, gds[g], |o.population|));
            && Run(c, InnerLoop(c), start, gds, g + 1) == Outcome(p.bred, p.best, o.entries + [p.best.fitness])
            && p.best.Record?
            && (o.best.Record? ==> p.best.fitness <= o.best.fitness)
            && (Consistent(c.objective, o.best, c.bounds) ==> Consistent(c.objective, p.best, c.bounds))
  {
    var o := Run(c, InnerLoop(c), start, gds, g);
    var w := Winners(c, o.population, gds[g], |o.population|);
    assert InnerLoop(c)(o.population, gds[g]) == w;
    assert Run(c, InnerLoop(c), start, gds, g + 1) == Generation(c, o, w);
  }

  /** A run keeps the history non-increasing and ending with the record's fitness. */
  lemma {:induction false} RunTracks(c: Config, breed: Breeder, start: Outcome, gds: seq<seq<SlotDraw>>, g: nat)
    requires ValidConfig(c) && Breeds(c, breed) && ValidPopulation(c, start.population) && g <= |gds| && ValidRunDraws(c, gds)
    requires Tracks(start.best, start.entries)
    ensures var o := Run(c, breed, start, gds, g);
            Tracks(o.best, o.entries)
  {
    if g > 0 {
      RunTracks(c, breed, start, gds, g - 1);
      var prev := Run(c, breed, start, gds, g - 1);
      var o := Run(c, breed, start, gds, g);
      NonIncreasingAppend(prev.entries, o.best.fitness);
    }
  }

  /** A run that starts from a record never ends with a worse one. */
  lemma {:induction false} RunBestNeverIncreases(c: Config, breed: Breeder, start: Outcome, gds: seq<seq<SlotDraw>>, g: nat)
    requires ValidConfig(c) && Breeds(c, breed) && ValidPopulation(c, start.population) && g <= |gds| && ValidRunDraws(c, gds)
    requires start.best.Record?
    ensures var o := Run(c, breed, start, gds, g);
            o.best.Record? && o.best.fitness <= start.best.fitness
  {
    if g > 0 {
      RunBestNeverIncreases(c, breed, start, gds, g - 1);
    }
  }

  /** Later generations only append to the history: the entries after h
      generations are a prefix of the entries after g >= h generations. */
  lemma {:induction false} PrefixEntries(c: Config, breed: Breeder, start: Outcome, gds: seq<seq<SlotDraw>>, h: nat, g: nat)
    requires ValidConfig(c) && Breeds(c, breed) && ValidPopulation(c, start.population) && h <= g <= |gds| && ValidRunDraws(c, gds)
    ensures Run(c, breed, start, gds, h).entries <= Run(c, breed, start, gds, g).entries
    decreases g
  {
    if h < g {
      PrefixEntries(c, breed, start, gds, h, g - 1);
      var prev := Run(c, breed, start, gds, g - 1).entries;
      var now := Run(c, breed, start, gds, g).entries;
      assert prev <= now;
    }
  }

  /** After at least one generation the record is at least as good as every
      member of the current population. */
  lemma RunBestIsBestOfPopulation(c: Config, breed: Breeder, start: Outcome, gds: seq<seq<SlotDraw>>, g: nat)
    requires ValidConfig(c) && Breeds(c, breed) && ValidPopulation(c, start.population) && 0 < g <= |gds| && ValidRunDraws(c, gds)
    ensures var o := Run(c, breed, start, gds, g);
            forall k :: 0 <= k < |o.population| ==> o.best.fitness <= c.objective(o.population[k])
  {
  }

  /** A run started from a consistent record ends with a consistent record. */
  lemma {:induction false} RunConsistent(c: Config, breed: Breeder, start: Outcome, gds: seq<seq<SlotDraw>>, g: nat)
    requires ValidConfig(c) && Breeds(c, breed) && ValidPopulation(c, start.population) && g <= |gds| && ValidRunDraws(c, gds)
    requires Consistent(c.objective, start.best, c.bounds)
    ensures Consistent(c.objective, Run(c, breed, start, gds, g).best, c.bounds)
  {
    if g > 0 {
      RunConsistent(c, breed, start, gds, g - 1);
    }
  }

  /** The generation loop of `optimizar` with `funcion_esfera` as the
      objective: a run started from a consistent record never records a
      negative fitness. */
  lemma SphereRecordNonNegative(c: Config, start: Outcome, gds: seq<seq<SlotDraw>>, g: nat)
    requires c.objective == Sphere && ValidConfig(c) && ValidPopulation(c, start.population)
    requires g <= |gds| && ValidRunDraws(c, gds) && Consistent(c.objective, start.best, c.bounds)
    ensures var b := Run(c, InnerLoop(c), start, gds, g).best;
            b.Record? ==> b.fitness >= 0.0
  {
    RunConsistent(c, InnerLoop(c), start, gds, g);
  }

  // ---------------------------------------------------------------------------
  // The optimiser object
  // ---------------------------------------------------------------------------

  /** `EvolucionDiferencial`: the configuration is fixed at construction; the
      history and the best record are the state `optimizar` updates. */
  class EvolucionDiferencial {
    const objective: Individual -> real
    const bounds: seq<Bound>
    const dims: nat
    const popSize: nat
    const F: real
    const CR: real
    const maxGenerations: nat

    var history: seq<real>
    var best: BestRecord

    function Settings(): Config
    {
      Config(objective, bounds, popSize, F, CR)
    }

    /** The history is non-increasing and ends with the current best fitness;
        the record is a point of the box with its true fitness. */
    ghost predicate Valid()
      reads this
    {
      ValidConfig(Settings()) && dims == |bounds|
      && Consistent(objective, best, bounds)
      && Tracks(best, history)
    }

    constructor (objective: Individual -> real, bounds: seq<Bound>, popSize: nat, F: real, CR: real, maxGenerations: nat)
      requires WellFormed(bounds) && popSize >= 4
      ensures Valid()
      ensures this.objective == objective && this.bounds == bounds && dims == |bounds|
      ensures this.popSize == popSize && this.F == F && this.CR == CR && this.maxGenerations == maxGenerations
      ensures history == [] && best == Unset
    {
      this.objective := objective;
      this.bounds := bounds;
      this.dims := |bounds|;
      this.popSize := popSize;
      this.F := F;
      this.CR := CR;
      this.maxGenerations := maxGenerations;
      history := [];
      best := Unset;
    }

    /** Steps a)-c) of the inner loop of `optimizar` for slot i: `mutar`,
        `cruzar`, then `seleccionar`, all on the snapshot `pop`. */
    method Breed(pop: seq<Individual>, i: nat, s: SlotDraw) returns (selected: Selection)
      requires ValidConfig(Settings()) && ValidPopulation(Settings(), pop) && i < |pop| && ValidSlotDraw(Settings(), s)
      ensures selected == Offspring(Settings(), pop, i, s)
    {
      var mutant := Mutate(pop, i, s.picks, F, bounds);
      var trial := Crossover(pop[i], mutant, s.coins, CR, s.forced);
      selected := Select(objective, pop[i], trial);
    }

    /** The update of the record after a selection: it changes only when
        `fitness` is strictly below the recorded fitness. */
    method Offer(x: Individual, fitness: real)
      modifies this`best
      ensures best == Improve(old(best), x, fitness)
    {
      if best.Unset? || fitness < best.fitness {
        best := Record(x, fitness);
      }
    }

    /** One pass of the inner loop of `optimizar`: fills a fresh buffer slot
        by slot from the snapshot `pop` and offers each winner to the record. */
    method EvolveGeneration(pop: seq<Individual>, ds: seq<SlotDraw>) returns (next: seq<Individual>)
      requires ValidConfig(Settings()) && ValidPopulation(Settings(), pop) && ValidGenerationDraws(Settings(), ds)
      modifies this`best
      ensures Progress(next, best) == Fill(old(best), Winners(Settings(), pop, ds, |pop|))
    {
      next := [];
      for i := 0 to popSize
        invariant Progress(next, best) == Fill(old(best), Winners(Settings(), pop, ds, i))
      {
        var selected := Breed(pop, i, ds[i]);
        FillNext(Settings(), pop, ds, old(best), i);
        next := next + [selected.individual];
        Offer(selected.individual, selected.fitness);
      }
    }

    /** One iteration of the generation loop of `optimizar`: the inner loop
        over the snapshot `population`, then the record's fitness appended to
        the history. It is the next generation of `Run`. */
    method NextGeneration(ghost start: Outcome, genDraws: seq<seq<SlotDraw>>, generation: nat, population: seq<Individual>)
      returns (next: seq<Individual>)
      requires Valid() && ValidPopulation(Settings(), start.population)
      requires generation < |genDraws| && ValidRunDraws(Settings(), genDraws)
      requires Outcome(population, best, history) == Run(Settings(), InnerLoop(Settings()), start, genDraws, generation)
      modifies this`best, this`history
      ensures Valid()
      ensures Outcome(next, best, history) == Run(Settings(), InnerLoop(Settings()), start, genDraws, generation + 1)
    {
      ghost var p := Fill(best, Winners(Settings(), population, genDraws[generation], |population|));
      RunStep(Settings(), start, genDraws, generation);
      next := EvolveGeneration(population, genDraws[generation]);
      assert next == p.bred && best == p.best;
      NonIncreasingAppend(history, best.fitness);
      history := history + [best.fitness];
    }

    /** `optimizar`: initialises a population, runs `maxGenerations`
        generations, appends the best fitness after each of them and returns
        the record. Neither the history nor the record is reset first. */
    method Optimize(initDraws: seq<seq<real>>, genDraws: seq<seq<SlotDraw>>) returns (result: BestRecord)
      requires Valid()
      requires UnitDraws(initDraws, popSize, dims)
      requires |genDraws| == maxGenerations && ValidRunDraws(Settings(), genDraws)
      modifies this
      ensures Valid()
      ensures var start := Outcome(InitialPopulation(bounds, popSize, initDraws), old(best), old(history));
              var o := Run(Settings(), InnerLoop(Settings()), start, genDraws, maxGenerations);
              best == o.best && history == o.entries
      ensures |history| == |old(history)| + maxGenerations
      ensures old(best).Record? ==> best.Record? && best.fitness <= old(best).fitness
      ensures result == best
    {
      var population := InitialPopulation(bounds, popSize, initDraws);
      ghost var start := Outcome(population, best, history);
      for generation := 0 to maxGenerations
        invariant Valid()
        invariant Outcome(population, best, history) == Run(Settings(), InnerLoop(Settings()), start, genDraws, generation)
      {
        population := NextGeneration(start, genDraws, generation, population);
      }
      if old(best).Record? {
        RunBestNeverIncreases(Settings(), InnerLoop(Settings()), start, genDraws, maxGenerations);
      }
      result := best;
    }
  }
}
