/** The teaching script `ejemplo_ultra_simple.py`: five numbers in [-10, 10]
    minimising `x * x` for twenty generations. The population is a list of
    scalars overwritten in place, and a counter records how many children
    replaced their parent. The random draws (`random.uniform`,
    `random.sample`, `random.random`) are parameters. */
module UltraSimpleScript {
  import opened Common

  const PopulationSize: nat := 5
  const F: real := 0.8
  const CR: real := 0.7
  const Generations: nat := 20
  const Lo: real := -10.0
  const Hi: real := 10.0

  /** The hard-coded `indices = [0, 1, 2, 3, 4]`: it lists every slot only
      because the population has exactly five of them. */
  const Indices: seq<nat> := [0, 1, 2, 3, 4]

  /** `funcion(x) = x * x`: never negative, and zero at 0. */
  function Square(x: real): (y: real)
    ensures y >= 0.0
    ensures x == 0.0 ==> y == 0.0
  {
    x * x
  }

  predicate InRange(x: real)
  {
    Lo <= x <= Hi
  }

  /** A population of the script: five values in [-10, 10]. */
  predicate Valid(pop: seq<real>)
  {
    |pop| == PopulationSize && forall k :: 0 <= k < |pop| ==> InRange(pop[k])
  }

  // ---------------------------------------------------------------------------
  // Initial population
  // ---------------------------------------------------------------------------

  /** Five draws u in [0, 1), one per `random.uniform(-10, 10)`. */
  predicate ValidUnitDraws(u: seq<real>)
  {
    |u| == PopulationSize && forall k :: 0 <= k < |u| ==> 0.0 <= u[k] < 1.0
  }

  /** Value k is `random.uniform(-10, 10)` for draw u[k], that is
      `-10 + u[k] * 20`; every value lies in [-10, 10]. */
  function InitialValues(u: seq<real>): (pop: seq<real>)
    requires ValidUnitDraws(u)
    ensures Valid(pop)
  {
    seq(|u|, k requires 0 <= k < |u| => Uniform(Lo, Hi, u[k]))
  }

  /** `poblacion = []` and five `poblacion.append(random.uniform(-10, 10))`. */
  method Initialize(u: seq<real>) returns (pop: seq<real>)
    requires ValidUnitDraws(u)
    ensures pop == InitialValues(u)
  {
    pop := [];
    for k := 0 to |u|
      invariant |pop| == k
      invariant forall j :: 0 <= j < k ==> pop[j] == Uniform(Lo, Hi, u[j]) && InRange(pop[j])
    {
      var x := Uniform(Lo, Hi, u[k]);
      pop := pop + [x];
    }
  }

  // ---------------------------------------------------------------------------
  // One slot of the inner loop
  // ---------------------------------------------------------------------------

  /** The draws consumed by slot i: the three positions `random.sample`
      takes from the four-entry list, and the `random.random()` of the
      crossover. */
  datatype SlotDraw = SlotDraw(picks: Picks, coin: real)

  predicate ValidSlotDraw(s: SlotDraw)
  {
    ValidPicks(s.picks, PopulationSize - 1) && 0.0 <= s.coin < 1.0
  }

  predicate ValidGenerationDraws(ds: seq<SlotDraw>)
  {
    |ds| == PopulationSize && forall k :: 0 <= k < |ds| ==> ValidSlotDraw(ds[k])
  }

  predicate ValidRunDraws(gds: seq<seq<SlotDraw>>)
  {
    forall g :: 0 <= g < |gds| ==> ValidGenerationDraws(gds[g])
  }

  /** `indices.remove(i)` followed by `r1, r2, r3 = random.sample(indices, 3)`:
      three distinct slots, none of them i. After the removal the list is
      `Others(5, i)` (lemma `RemovedIndexList`, used by `Script.Improve`). */
  function DonorsFor(i: nat, picks: Picks): (d: Donors)
    requires i < PopulationSize && ValidPicks(picks, PopulationSize - 1)
    ensures DistinctDonors(d, i, PopulationSize)
  {
    ChooseFromOthers(PopulationSize, i, picks);
    Choose(Others(PopulationSize, i), picks)
  }

  /** The two ifs after the mutant is computed: below -10 it becomes -10,
      then above 10 it becomes 10. The result is the point of [-10, 10]
      nearest to v, as `np.clip` would give. */
  function Clamp(v: real): (c: real)
    ensures c == Clip(v, Lo, Hi)
  {
    var low := if v < Lo then Lo else v;
    if low > Hi then Hi else low
  }

  /** `mutante = poblacion[r1] + F * (poblacion[r2] - poblacion[r3])`, kept
      inside [-10, 10]; a value already inside is left unchanged. */
  function Mutant(pop: seq<real>, d: Donors): (m: real)
    requires |pop| == PopulationSize && d.r1 < |pop| && d.r2 < |pop| && d.r3 < |pop|
    ensures InRange(m)
    ensures InRange(pop[d.r1] + F * (pop[d.r2] - pop[d.r3])) ==> m == pop[d.r1] + F * (pop[d.r2] - pop[d.r3])
    ensures m == Clip(pop[d.r1] + F * (pop[d.r2] - pop[d.r3]), Lo, Hi)
  {
    Clamp(pop[d.r1] + F * (pop[d.r2] - pop[d.r3]))
  }

  /** The crossover of one scalar: `hijo` is the mutant when the draw is
      below CR and the current value otherwise. */
  function Child(current: real, mutant: real, coin: real): (h: real)
    ensures h == current || h == mutant
    ensures coin < CR ==> h == mutant
    ensures CR <= coin ==> h == current
  {
    if coin < CR then mutant else current
  }

  /** `hijo` for slot i: donors, clamped mutant, crossover. It lies in
      [-10, 10] whenever the population does. */
  function Offspring(pop: seq<real>, i: nat, s: SlotDraw): (h: real)
    requires Valid(pop) && i < |pop| && ValidSlotDraw(s)
    ensures InRange(h)
  {
    Child(pop[i], Mutant(pop, DonorsFor(i, s.picks)), s.coin)
  }

  /** The script's mutable state: the list `poblacion` and the counter
      `mejoras_totales`. */
  datatype Tally = Tally(population: seq<real>, improvements: nat)

  /** What produces `hijo` for slot i; the loop functions below are stated
      for any such function that stays in [-10, 10], and the script uses
      `Breeding()`. */
  type Breeder = (seq<real>, nat, SlotDraw) --> real

  ghost predicate Breeds(breed: Breeder)
  {
    forall pop: seq<real>, i: nat, s: SlotDraw {:trigger breed.requires(pop, i, s)} {:trigger breed(pop, i, s)} ::
      Valid(pop) && i < |pop| && ValidSlotDraw(s) ==> breed.requires(pop, i, s) && InRange(breed(pop, i, s))
  }

  /** The script's own `hijo`: `Offspring`. */
  function Breeding(): (breed: Breeder)
    ensures Breeds(breed)
  {
    (pop: seq<real>, i: nat, s: SlotDraw) requires Valid(pop) && i < |pop| && ValidSlotDraw(s) => Offspring(pop, i, s)
  }

  /** The body of `for i in range(poblacion_tamano)`: slot i takes the child
      when the child is strictly better (lemma `StepReplaces`). Slot i never
      gets worse, and the counter goes up exactly when slot i changes. */
  function StepSpec(breed: Breeder, t: Tally, i: nat, s: SlotDraw): (r: Tally)
    requires Breeds(breed) && Valid(t.population) && i < |t.population| && ValidSlotDraw(s)
    ensures Valid(r.population)
    ensures Square(r.population[i]) <= Square(t.population[i])
    ensures r.improvements == (if r.population[i] != t.population[i] then t.improvements + 1 else t.improvements)
  {
    var h := breed(t.population, i, s);
    if Square(h) < Square(t.population[i]) then Tally(t.population[i := h], t.improvements + 1) else t
  }

  /** Slot i holds the child afterwards exactly when the child's square is
      strictly smaller; otherwise the state is unchanged. */
  lemma StepReplaces(breed: Breeder, t: Tally, i: nat, s: SlotDraw)
    requires Breeds(breed) && Valid(t.population) && i < |t.population| && ValidSlotDraw(s)
    ensures var h := breed(t.population, i, s);
            var r := StepSpec(breed, t, i, s);
            (Square(h) < Square(t.population[i]) ==> r.population[i] == h && r.improvements == t.improvements + 1)
            && (Square(t.population[i]) <= Square(h) ==> r == t)
  {
  }

  /** No slot but i changes, and a change of slot i makes it strictly better. */
  lemma StepSlots(breed: Breeder, t: Tally, i: nat, s: SlotDraw)
    requires Breeds(breed) && Valid(t.population) && i < |t.population| && ValidSlotDraw(s)
    ensures var r := StepSpec(breed, t, i, s).population;
            (forall k {:trigger r[k]} :: 0 <= k < |r| && k != i ==> r[k] == t.population[k])
            && (r[i] != t.population[i] ==> Square(r[i]) < Square(t.population[i]))
  {
  }

  /** The first n slots of one generation, in order; a slot sees the
      replacements made before it in the same generation. The counter goes
      up by at most one per slot visited. */
  function Sweep(breed: Breeder, t: Tally, ds: seq<SlotDraw>, n: nat): (r: Tally)
    requires Breeds(breed) && Valid(t.population) && ValidGenerationDraws(ds) && n <= |t.population|
    ensures Valid(r.population)
    ensures t.improvements <= r.improvements <= t.improvements + n
    decreases n
  {
    if n == 0 then t else StepSpec(breed, Sweep(breed, t, ds, n - 1), n - 1, ds[n - 1])
  }

  /** Slot by slot, `next` holds values no worse under `x * x` than `prev`,
      and a slot that changed got strictly better. */
  predicate Improved(next: seq<real>, prev: seq<real>)
  {
    |next| == |prev|
    && forall k {:trigger next[k]} :: 0 <= k < |prev| ==>
         Square(next[k]) <= Square(prev[k]) && (next[k] != prev[k] ==> Square(next[k]) < Square(prev[k]))
  }

  /** The number of positions below n where a and b differ. */
  function Differences(a: seq<real>, b: seq<real>, n: nat): nat
    requires n <= |a| && n <= |b|
    decreases n
  {
    if n == 0 then 0 else Differences(a, b, n - 1) + (if a[n - 1] != b[n - 1] then 1 else 0)
  }

  /** Differences below n only look at the positions below n. */
  lemma {:induction false} DifferencesAgree(a: seq<real>, c: seq<real>, b: seq<real>, n: nat)
    requires n <= |a| && n <= |c| && n <= |b|
    requires forall k :: 0 <= k < n ==> a[k] == c[k]
    ensures Differences(a, b, n) == Differences(c, b, n)
    decreases n
  {
    if n > 0 {
      DifferencesAgree(a, c, b, n - 1);
    }
  }

  /** After the first n slots every slot is no worse than before, a changed
      slot is strictly better, and the slots from n on are untouched. */
  lemma {:induction false} SweepSlots(breed: Breeder, t: Tally, ds: seq<SlotDraw>, n: nat)
    requires Breeds(breed) && Valid(t.population) && ValidGenerationDraws(ds) && n <= |t.population|
    ensures var r := Sweep(breed, t, ds, n).population;
            Improved(r, t.population) && forall k {:trigger r[k]} :: n <= k < |r| ==> r[k] == t.population[k]
    decreases n
  {
    if n > 0 {
      SweepSlots(breed, t, ds, n - 1);
      StepSlots(breed, Sweep(breed, t, ds, n - 1), n - 1, ds[n - 1]);
    }
  }

  /** Within one generation `mejoras_totales` goes up by exactly the number of
      slots whose value was replaced: each slot is visited once and its
      replacement is counted once. */
  lemma {:induction false} SweepCounts(breed: Breeder, t: Tally, ds: seq<SlotDraw>, n: nat)
    requires Breeds(breed) && Valid(t.population) && ValidGenerationDraws(ds) && n <= |t.population|
    ensures var r := Sweep(breed, t, ds, n);
            r.improvements == t.improvements + Differences(r.population, t.population, n)
    decreases n
  {
    if n > 0 {
      SweepCounts(breed, t, ds, n - 1);
      SweepSlots(breed, t, ds, n - 1);
      var prev := Sweep(breed, t, ds, n - 1);
      var r := Sweep(breed, t, ds, n);
      assert r == StepSpec(breed, prev, n - 1, ds[n - 1]);
      StepSlots(breed, prev, n - 1, ds[n - 1]);
      DifferencesAgree(r.population, prev.population, t.population, n - 1);
    }
  }

  // ---------------------------------------------------------------------------
  // The generation loop
  // ---------------------------------------------------------------------------

  /** The state after the first g generations. Every value stays in
      [-10, 10], and the counter grows by at most `poblacion_tamano` per
      generation. */
  function Evolution(breed: Breeder, t: Tally, gds: seq<seq<SlotDraw>>, g: nat): (r: Tally)
    requires Breeds(breed) && Valid(t.population) && ValidRunDraws(gds) && g <= |gds|
    ensures Valid(r.population)
    ensures t.improvements <= r.improvements <= t.improvements + g * PopulationSize
    decreases g
  {
    if g == 0 then t
    else
      var prev := Evolution(breed, t, gds, g - 1);
      Sweep(breed, prev, gds[g - 1], |prev.population|)
  }

  /** Slot by slot, `next` holds values no worse under `x * x` than `prev`. */
  predicate NoWorse(next: seq<real>, prev: seq<real>)
  {
    |next| == |prev| && forall k {:trigger next[k]} :: 0 <= k < |prev| ==> Square(next[k]) <= Square(prev[k])
  }

  /** One generation: every slot is no worse than in the generation before. */
  lemma GenerationImproves(breed: Breeder, t: Tally, gds: seq<seq<SlotDraw>>, g: nat)
    requires Breeds(breed) && Valid(t.population) && ValidRunDraws(gds) && 0 < g <= |gds|
    ensures Improved(Evolution(breed, t, gds, g).population, Evolution(breed, t, gds, g - 1).population)
  {
    var prev := Evolution(breed, t, gds, g - 1);
    SweepSlots(breed, prev, gds[g - 1], |prev.population|);
  }

  /** "Selection guarantees we never got worse": no slot's `x * x` goes up
      over the run. */
  lemma {:induction false} NeverWorse(breed: Breeder, t: Tally, gds: seq<seq<SlotDraw>>, g: nat)
    requires Breeds(breed) && Valid(t.population) && ValidRunDraws(gds) && g <= |gds|
    ensures NoWorse(Evolution(breed, t, gds, g).population, t.population)
    decreases g
  {
    if g > 0 {
      NeverWorse(breed, t, gds, g - 1);
      GenerationImproves(breed, t, gds, g);
    }
  }

  // ---------------------------------------------------------------------------
  // Final result
  // ---------------------------------------------------------------------------

  /** `[funcion(x) for x in poblacion]`. */
  function Squares(pop: seq<real>): (fs: seq<real>)
    ensures |fs| == |pop|
    ensures forall k {:trigger fs[k]} :: 0 <= k < |pop| ==> fs[k] == Square(pop[k])
  {
    seq(|pop|, k requires 0 <= k < |pop| => Square(pop[k]))
  }

  /** `min(poblacion, key=funcion)`: a member of the population whose square
      is least, the first such one in list order. */
  function BestOf(pop: seq<real>): (b: real)
    requires |pop| > 0
    ensures b in pop
    ensures forall k :: 0 <= k < |pop| ==> Square(b) <= Square(pop[k])
    ensures exists k :: 0 <= k < |pop| && pop[k] == b && forall j :: 0 <= j < k ==> Square(b) < Square(pop[j])
  {
    var fs := Squares(pop);
    var k := ArgMin(fs);
    assert forall j :: 0 <= j < |pop| ==> fs[j] == Square(pop[j]);
    pop[k]
  }

  // ---------------------------------------------------------------------------
  // The script's state, updated in place
  // ---------------------------------------------------------------------------

  /** The module-level variables of the script: the list `poblacion` and the
      counter `mejoras_totales`. */
  class Script {
    var population: seq<real>
    var improvements: nat

    function State(): Tally
      reads this
    {
      Tally(population, improvements)
    }

    /** PASO 1 and `mejoras_totales = 0`. */
    constructor (u: seq<real>)
      requires ValidUnitDraws(u)
      ensures population == InitialValues(u) && improvements == 0
    {
      var pop := Initialize(u);
      population := pop;
      improvements := 0;
    }

    /** One slot: donors from the hard-coded list without i, the mutant and
        its two ifs, the coin crossover, and the strict replacement that
        increments the counter. */
    method Improve(i: nat, s: SlotDraw)
      requires Valid(population) && i < |population| && ValidSlotDraw(s)
      modifies this
      ensures State() == StepSpec(Breeding(), old(State()), i, s)
    {
      var indices := Indices;
      assert indices == Interval(0, PopulationSize);
      RemovedIndexList(PopulationSize, i);
      indices := RemoveFirst(indices, i);
      var d := Choose(indices, s.picks);
      var difference := population[d.r2] - population[d.r3];
      var mutant := population[d.r1] + F * difference;
      if mutant < Lo {
        mutant := Lo;
      }
      if mutant > Hi {
        mutant := Hi;
      }
      var child;
      if s.coin < CR {
        child := mutant;
      } else {
        child := population[i];
      }
      assert child == Breeding()(population, i, s);
      if Square(child) < Square(population[i]) {
        population := population[i := child];
        improvements := improvements + 1;
      }
    }

    /** `for i in range(poblacion_tamano)`: the slots in order. */
    method Generation(ds: seq<SlotDraw>)
      requires Valid(population) && ValidGenerationDraws(ds)
      modifies this
      ensures State() == Sweep(Breeding(), old(State()), ds, |old(population)|)
    {
      ghost var start := State();
      for i := 0 to |population|
        invariant State() == Sweep(Breeding(), start, ds, i)
      {
        Improve(i, ds[i]);
      }
    }

    /** `for gen in range(generaciones)`. */
    method Evolve(gds: seq<seq<SlotDraw>>)
      requires Valid(population) && ValidRunDraws(gds)
      modifies this
      ensures State() == Evolution(Breeding(), old(State()), gds, |gds|)
    {
      ghost var start := State();
      for gen := 0 to |gds|
        invariant State() == Evolution(Breeding(), start, gds, gen)
      {
        Generation(gds[gen]);
      }
    }
  }

  /** The whole script: the initial draws, twenty generations, then
      `mejor_solucion = min(poblacion, key=funcion)`. Every final value lies in
      [-10, 10], no slot ended worse than it started, at most
      `generaciones * poblacion_tamano` replacements were counted, and the
      answer is the first value with the least square. */
  method Run(u: seq<real>, gds: seq<seq<SlotDraw>>) returns (population: seq<real>, improvements: nat, best: real)
    requires ValidUnitDraws(u) && ValidRunDraws(gds) && |gds| == Generations
    ensures var start := Tally(InitialValues(u), 0);
            Tally(population, improvements) == Evolution(Breeding(), start, gds, |gds|)
            && NoWorse(population, start.population)
    ensures Valid(population) && improvements <= Generations * PopulationSize
    ensures best == BestOf(population) && InRange(best)
  {
    var script := new Script(u);
    ghost var start := script.State();
    script.Evolve(gds);
    NeverWorse(Breeding(), start, gds, |gds|);
    population, improvements := script.population, script.improvements;
    best := BestOf(population);
  }
}
