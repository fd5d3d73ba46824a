# Differential Evolution, modelled in Dafny

The repository teaches Differential Evolution (DE). DE is a derivative-free
minimiser over a box of real vectors, here with the DE/rand/1 strategy:
- mutation: `x_r1 + F * (x_r2 - x_r3)` from three donors distinct from each
  other and from the target, clipped to the box;
- binomial crossover;
- greedy selection.

The algorithm appears in three forms, and each has a module:

- `Generational` (`generational.dfy`) models the class `EvolucionDiferencial`
  (`diferencial_evolution_ejemplo.py`):
  - pure functions for the initialiser, `mutar`, the crossover mask,
    `seleccionar` and the best-so-far update;
  - a method `Crossover` that copies the target into a buffer and writes the
    masked genes in place;
  - a `class EvolucionDiferencial` whose fields `history` and `best` are
    updated by `Optimize`, exactly as `optimizar` updates
    `historial_mejor_fitness`, `mejor_fitness` and `mejor_solucion`.
  
  Each generation is bred from a frozen snapshot into a fresh buffer. The
  generation loop is specified by the function `Run`, and the class's
  methods are proved equal to it.
- `QuickScript` (`quick_script.dfy`) models the 2-D script `ejemplo_rapido.py`:
  - twenty points of `[-10, 10]^2`, held in an `array<Individual>` that is
    overwritten in place (a steady-state variant);
  - crossover with no forced gene;
  - strict `<` selection;
  - the population minimum appended to the history each generation;
  - `np.argmin` at the end.
  
  The methods `Step`, `SweepInPlace`, `Evolve` and `Optimize` are proved
  against the functions `StepSpec`, `Sweep` and `Evolution`.
- `UltraSimpleScript` (`ultra_simple_script.dfy`) models the 1-D teaching
  script `ejemplo_ultra_simple.py`:
  - five scalars, kept in a class `Script` whose fields are the list
    `poblacion` and the counter `mejoras_totales`;
  - donors drawn from the hard-coded list `[0, 1, 2, 3, 4]` after
    `remove(i)`;
  - a clamp made of two `if`s and a single-coin crossover;
  - strict replacement that increments the counter;
  - `min(poblacion, key=funcion)` at the end.

`Common` (`common.dfy`) holds what the three share: box bounds, clipping,
uniform scaling, the index lists, the donor choice, the DE/rand/1 vector,
the per-gene crossover, and minimum/argmin.

Randomness, objectives and assumptions are handled the same way throughout:
- Every random draw is a parameter:
  - the uniform draws in `[0, 1)` of the initial population;
  - the three positions that `np.random.choice` / `random.sample` take from
    the index list;
  - the per-gene (or single) crossover draws;
  - the gene that `np.random.randint` forces.
  
  So that the donors' distinctness is proved, not assumed, the model draws
  positions in the index list rather than the indices themselves.
- The objective of the class is a parameter of type `seq<real> -> real`.
  `Sphere` (`funcion_esfera`) is its concrete instance, and
  `SphereRecordNonNegative` runs the generation loop with it. `Sphere` and
  the quick script's `Objective` share one sum of squares, `SumOfSquares`.
- The code validates nothing. Its assumptions appear as `requires`:
  - at least one dimension;
  - `lo <= hi` in every dimension;
  - at least four individuals.

## Model

| member | source | states |
|---|---|---|
| Common.Clip | diferencial_evolution_ejemplo.py:132 | `np.clip` of a gene: the result lies in `[lo, hi]`, equals the input when the input is already inside, and is the point of the interval nearest to the input |
| Common.ClipToBox | diferencial_evolution_ejemplo.py:132 | the clipped vector lies in the box, and genes already inside their range are unchanged |
| Common.Uniform | diferencial_evolution_ejemplo.py:96-98 | `lo + u*(hi - lo)` with `u` in `[0, 1)` lies in `[lo, hi]`, and strictly below `hi` when `lo < hi` |
| Common.InitialPopulation | diferencial_evolution_ejemplo.py:93-98 | the initial population has `popSize` individuals, every gene inside its dimension's bounds |
| Common.Drawn | diferencial_evolution_ejemplo.py:96-98 | one individual scaled from a row of unit draws lies in the box |
| Common.Interval | diferencial_evolution_ejemplo.py:124 | `list(range(n))` has exactly `n` entries |
| Common.IntervalFacts | diferencial_evolution_ejemplo.py:124 | `list(range(n))` holds exactly the numbers below `n`, in strictly increasing order (shifted to start at `a`) |
| Common.RemoveFirst | diferencial_evolution_ejemplo.py:125 | `list.remove(x)` shortens the list by exactly one |
| Common.RemoveFirstMultiset | diferencial_evolution_ejemplo.py:125 | `list.remove(x)` takes away exactly one occurrence of `x` and keeps every other element |
| Common.FilterOut | ejemplo_rapido.py:42 | an element is in `[e for e in s if e != x]` exactly when it is in `s` and differs from `x` |
| Common.RemoveFirstFromInterval | diferencial_evolution_ejemplo.py:124-125 | removing `x` from `[a, ..., a+m-1]` leaves the values below `x` in place and shifts the ones above it down one position |
| Common.FilterOutAbsent | ejemplo_rapido.py:42 | filtering out a value that does not occur leaves the list unchanged |
| Common.FilterOutOfInterval | ejemplo_rapido.py:42 | filtering `x` out of `[a, ..., a+m-1]` gives the same list as skipping over `x` |
| Common.RemovedIndexList | diferencial_evolution_ejemplo.py:124-125 | `list(range(n))` with `i` removed is the ordered list of every index below `n` except `i` |
| Common.FilteredIndexList | ejemplo_rapido.py:42 | `[idx for idx in range(n) if idx != i]` is that same list |
| Common.Choose | diferencial_evolution_ejemplo.py:126 | the three chosen donors are entries of the index list |
| Common.ChooseFromOthers | diferencial_evolution_ejemplo.py:124-126 | three distinct positions in the list of the other indices give donors that are valid indices, pairwise distinct and all different from `i` |
| Common.DifferenceVector | diferencial_evolution_ejemplo.py:129 | the unclipped DE/rand/1 vector has one gene per dimension |
| Common.AddScaledDifference | diferencial_evolution_ejemplo.py:129 | the first `n` genes of `poblacion[r1] + F * (poblacion[r2] - poblacion[r3])` form a vector of length `n`; its genes are given by `AddScaledDifferenceGenes` |
| Common.AddScaledDifferenceGenes | diferencial_evolution_ejemplo.py:129 | gene `j` of `a + F*(b - c)` is `a[j] + F*(b[j] - c[j])` |
| Common.Mutant | diferencial_evolution_ejemplo.py:129-132 | the clipped mutant lies in the box |
| Common.MutantGenes | diferencial_evolution_ejemplo.py:129-132 | gene `j` of the mutant is `clip(x_r1[j] + F*(x_r2[j] - x_r3[j]), lo_j, hi_j)` |
| Common.CoinMask | diferencial_evolution_ejemplo.py:161 | the mask has one entry per gene, set exactly when that gene's draw is below `CR` |
| Common.Trial | diferencial_evolution_ejemplo.py:158-168 | the trial has as many genes as the target |
| Common.TrialGenes | diferencial_evolution_ejemplo.py:158-168 | every trial gene is the target's or the mutant's at that position: masked genes are the mutant's, the rest are the target's; the trial of two points of the box is in the box |
| Common.MinOf | ejemplo_rapido.py:61 | `min` of a non-empty list is an entry of the list and at most every entry |
| Common.MinOfPrefix | ejemplo_rapido.py:61 | the minimum of the first `n` entries is one of them and at most each of them |
| Common.ArgMin | ejemplo_rapido.py:76 | `np.argmin` is an index of a least entry, and every earlier entry is strictly greater (the first minimum) |
| Common.ArgMinPrefix | ejemplo_rapido.py:76 | the same for the first `n` entries |
| Common.MinOfPointwise | ejemplo_rapido.py:60-62 | a list that is pointwise no larger has a minimum no larger |
| Common.NonIncreasingAppend | diferencial_evolution_ejemplo.py:269 | appending a value no larger than the last entry keeps a history non-increasing |
| Common.SumOfSquares | diferencial_evolution_ejemplo.py:27 | a sum of squared genes is never negative |
| Common.SumOfSquaresZero | diferencial_evolution_ejemplo.py:27 | a sum of squared genes is zero when all those genes are zero |
| Generational.Sphere | diferencial_evolution_ejemplo.py:21-27 | the sphere function is never negative |
| Generational.SphereZeroAtOrigin | diferencial_evolution_ejemplo.py:21-27 | the sphere function is zero at the origin |
| Generational.MutationDonors | diferencial_evolution_ejemplo.py:124-126 | the donors of `mutar` are valid indices, pairwise distinct and all different from `indice_actual` |
| Generational.Mutate | diferencial_evolution_ejemplo.py:102-134 | the mutant of `mutar` lies in the box |
| Generational.CrossoverMask | diferencial_evolution_ejemplo.py:160-165 | the mask has a set entry; every gene whose draw is below `CR` is set; apart from the forced gene, a set gene had its draw below `CR`; when some draw is below `CR` the mask is exactly the draw mask |
| Generational.Crossover | diferencial_evolution_ejemplo.py:136-170 | `cruzar` returns the copied target with the masked genes taken from the mutant, and at least one trial gene equals the mutant's |
| Generational.CrossoverTakesFromMutant | diferencial_evolution_ejemplo.py:163-168 | some trial gene comes from the mutant, so a mutant that differs from the target in every gene yields a trial different from the target |
| Generational.CrossoverMayReturnTarget | diferencial_evolution_ejemplo.py:158-168 | a mutant that differs from the target in only one gene can still yield a trial equal to the target |
| Generational.Select | diferencial_evolution_ejemplo.py:194-200 | `seleccionar` returns the trial with its fitness when `f(trial) <= f(target)` (a tie goes to the trial), otherwise the target; the returned fitness is the true fitness of the returned individual and the smaller of the two |
| Generational.Improve | diferencial_evolution_ejemplo.py:261-263 | the record is replaced exactly when it is unset or the new fitness is strictly lower; it never gets worse and ends at most the offered fitness |
| Generational.Offspring | diferencial_evolution_ejemplo.py:251-258 | the individual placed in slot `i` lies in the box and carries its true fitness, no worse than the snapshot's slot `i` |
| Generational.Winners | diferencial_evolution_ejemplo.py:247-258 | every slot of `nueva_poblacion` is computed from the snapshot alone; each winner lies in the box, carries its true fitness and is no worse than the snapshot's slot |
| Generational.Fill | diferencial_evolution_ejemplo.py:250-263 | the inner loop places exactly one individual per winner |
| Generational.FillSlots | diferencial_evolution_ejemplo.py:258 | slot `k` of `nueva_poblacion` holds the winner of slot `k` |
| Generational.FillNext | diferencial_evolution_ejemplo.py:258-263 | placing the winner of slot `i` extends `nueva_poblacion` by that individual and offers it with its fitness to the record |
| Generational.FillFacts | diferencial_evolution_ejemplo.py:258-263 | after the inner loop the record is set; it is no worse than before and at most every winner's fitness; it is either the old record or one of the winners; and it stays consistent (`f(solution) == fitness`, inside the box) |
| Generational.InnerLoop | diferencial_evolution_ejemplo.py:247-264 | the inner loop, taken as a breeding step, gives good winners for every valid snapshot |
| Generational.Generation | diferencial_evolution_ejemplo.py:245-269 | after a generation the population is in the box and exactly one history entry (the record's fitness) has been appended; the record is no worse, at most every new member's fitness, and still consistent; no slot got worse |
| Generational.Run | diferencial_evolution_ejemplo.py:245-269 | after `g` generations the population is in the box, the history has grown by exactly `g` entries, and its last entry is the record's fitness |
| Generational.RunStep | diferencial_evolution_ejemplo.py:245-269 | one more pass of the loop body is one more generation of `Run`, and it does not worsen the record or make it inconsistent |
| Generational.RunTracks | diferencial_evolution_ejemplo.py:269 | the history stays non-increasing and ends with the record's fitness |
| Generational.RunBestNeverIncreases | diferencial_evolution_ejemplo.py:261-263 | `mejor_fitness` never increases over a run |
| Generational.PrefixEntries | diferencial_evolution_ejemplo.py:269 | the history is append-only: the entries after `h` generations are a prefix of those after `g >= h` |
| Generational.RunBestIsBestOfPopulation | diferencial_evolution_ejemplo.py:258-263 | after each generation `mejor_fitness` is at most the fitness of every member of the population |
| Generational.RunConsistent | diferencial_evolution_ejemplo.py:261-263 | `f(mejor_solucion) == mejor_fitness` and the solution lies in the box, throughout a run |
| Generational.SphereRecordNonNegative | diferencial_evolution_ejemplo.py:245-269 | with `funcion_esfera` as the objective, the generation loop never records a negative `mejor_fitness` |
| Generational.EvolucionDiferencial.constructor | diferencial_evolution_ejemplo.py:73-86 | stores the configuration, with an empty history and no record (`np.inf` / `None`) |
| Generational.EvolucionDiferencial.Breed | diferencial_evolution_ejemplo.py:251-258 | `mutar`, `cruzar` and `seleccionar` on the snapshot give exactly `Offspring` |
| Generational.EvolucionDiferencial.Offer | diferencial_evolution_ejemplo.py:261-263 | the record becomes `Improve(old record, x, fitness)` |
| Generational.EvolucionDiferencial.EvolveGeneration | diferencial_evolution_ejemplo.py:247-264 | the buffer and the record after the inner loop are those of `Fill` over the snapshot's `Winners` |
| Generational.EvolucionDiferencial.NextGeneration | diferencial_evolution_ejemplo.py:245-269 | one iteration of the generation loop (inner loop, then the record's fitness appended to the history) is the next generation of `Run`, and the history stays non-increasing and ending with the record's fitness |
| Generational.EvolucionDiferencial.Optimize | diferencial_evolution_ejemplo.py:202-284 | `optimizar` leaves the record and history of `Run` from the initial population and the old record and history (neither is reset); the history grows by exactly `max_generaciones`, stays non-increasing and ends with `mejor_fitness`; the record never worsens and stays consistent; the returned record is the new one |
| QuickScript.Objective | ejemplo_rapido.py:14-16 | the objective is never negative |
| QuickScript.ObjectiveFormula | ejemplo_rapido.py:14-16 | the objective is `x[0]**2 + x[1]**2` and is zero at `(0, 0)` |
| QuickScript.Fitnesses | ejemplo_rapido.py:60 | entry `k` of `[f(ind) for ind in poblacion]` is `f(poblacion[k])` |
| QuickScript.FitnessPrefix | ejemplo_rapido.py:60 | the same for the first `n` individuals |
| QuickScript.DonorsFor | ejemplo_rapido.py:42-43 | `r1, r2, r3` are valid, pairwise distinct and all different from `i` |
| QuickScript.Offspring | ejemplo_rapido.py:42-53 | the trial lies in `[-10, 10]^2` |
| QuickScript.OffspringGenes | ejemplo_rapido.py:46-53 | trial gene `j` is the clipped mutant's when its draw is below `CR`, else the target's; with both draws at or above `CR` the trial equals the target (no gene is forced) |
| QuickScript.Breeding | ejemplo_rapido.py:42-53 | the script's mutation and crossover always yield a point of the square |
| QuickScript.StepSpec | ejemplo_rapido.py:56-57 | when `f(trial) < f(poblacion[i])` slot `i` takes the trial and every other slot keeps its individual; otherwise the population is unchanged; slot `i` never gets worse and the population stays in the square |
| QuickScript.Sweep | ejemplo_rapido.py:40-57 | after any number of slots the population keeps its size and stays in the square |
| QuickScript.SweepSlots | ejemplo_rapido.py:40-57 | after the first `n` slots no slot is worse, and slots from `n` on are untouched |
| QuickScript.SweepLowersMinimum | ejemplo_rapido.py:40-61 | a generation never raises the minimum fitness of the population |
| QuickScript.Evolution | ejemplo_rapido.py:39-62 | after `g` generations the population is in the square, the history has `g` entries, and the last one is the current minimum fitness |
| QuickScript.GenerationSlots | ejemplo_rapido.py:39-57 | from one generation to the next no slot's fitness goes up |
| QuickScript.SlotsNeverWorsen | ejemplo_rapido.py:39-57 | the fitness stored in each slot never goes up over the run |
| QuickScript.HistoryNonIncreasing | ejemplo_rapido.py:59-62 | `mejor_fitness_historico` is non-increasing |
| QuickScript.Cross | ejemplo_rapido.py:50-53 | the copied trial has gene `j` from the mutant exactly when its draw is below `CR` |
| QuickScript.Step | ejemplo_rapido.py:41-57 | the in-place slot update is `StepSpec` with the script's own breeding |
| QuickScript.SweepSlot | ejemplo_rapido.py:41-57 | after slot `i` of an in-place pass the array holds the first `i + 1` slots of `Sweep` from the pass's starting population |
| QuickScript.SweepInPlace | ejemplo_rapido.py:40-57 | the in-place pass over the slots is `Sweep`, so later slots see earlier replacements |
| QuickScript.Evolve | ejemplo_rapido.py:39-62 | the array and the history after the generation loop are those of `Evolution` |
| QuickScript.BestOf | ejemplo_rapido.py:75-78 | `mejor_idx` is the first index of the least fitness; `mejor_valor` is `f(mejor_solucion)` and the minimum of `fitness_final` |
| QuickScript.Populate | ejemplo_rapido.py:26 | a fresh array holding the initial population drawn in the square |
| QuickScript.Optimize | ejemplo_rapido.py:39-78 | for any objective, after the loop and the final argmin: the history has one entry per generation and is non-increasing; `mejor_valor` is the minimum final fitness, equals the last history entry, and is the fitness of `mejor_solucion`, a member of the final population inside the square |
| QuickScript.Minimize | ejemplo_rapido.py:25-78 | the same, starting from the initial draws |
| QuickScript.Script | ejemplo_rapido.py:25-78 | the script as written: fifty entries, non-increasing, the last being `mejor_valor >= 0`, the fitness of a final member inside the square |
| UltraSimpleScript.Square | ejemplo_ultra_simple.py:29-31 | `x * x` is never negative and is zero at 0 |
| UltraSimpleScript.InitialValues | ejemplo_ultra_simple.py:36-39 | the initial population has five values, each in `[-10, 10]` |
| UltraSimpleScript.Initialize | ejemplo_ultra_simple.py:36-39 | the `append` loop builds exactly those values |
| UltraSimpleScript.DonorsFor | ejemplo_ultra_simple.py:83-85 | `r1, r2, r3` are valid, pairwise distinct and all different from `i` |
| UltraSimpleScript.Clamp | ejemplo_ultra_simple.py:107-111 | the two `if`s compute `clip(v, -10, 10)`, the nearest point of the interval |
| UltraSimpleScript.Mutant | ejemplo_ultra_simple.py:98-111 | the mutant is `x_r1 + F*(x_r2 - x_r3)` clipped to `[-10, 10]`: -10 below, 10 above, and the value itself when already inside |
| UltraSimpleScript.Child | ejemplo_ultra_simple.py:117-123 | `hijo` is the mutant when the draw is below `CR` and `poblacion[i]` otherwise |
| UltraSimpleScript.Offspring | ejemplo_ultra_simple.py:97-123 | `hijo` lies in `[-10, 10]` |
| UltraSimpleScript.Breeding | ejemplo_ultra_simple.py:97-123 | the script's breeding always yields a value in `[-10, 10]` |
| UltraSimpleScript.StepSpec | ejemplo_ultra_simple.py:130-143 | slot `i` never gets worse, the population stays in range, and `mejoras_totales` goes up by one exactly when slot `i` changes |
| UltraSimpleScript.StepReplaces | ejemplo_ultra_simple.py:134-143 | slot `i` takes `hijo` and the counter goes up exactly when `f(hijo) < f(poblacion[i])`; otherwise nothing changes |
| UltraSimpleScript.StepSlots | ejemplo_ultra_simple.py:134-141 | only slot `i` can change, and a change makes it strictly better |
| UltraSimpleScript.Sweep | ejemplo_ultra_simple.py:80-143 | a pass over `n` slots keeps the population in range and raises the counter by at most `n` |
| UltraSimpleScript.DifferencesAgree | ejemplo_ultra_simple.py:141-142 | counting changed slots below `n` looks only at those slots |
| UltraSimpleScript.SweepSlots | ejemplo_ultra_simple.py:80-143 | after `n` slots none is worse, a changed one is strictly better, and later slots are untouched |
| UltraSimpleScript.SweepCounts | ejemplo_ultra_simple.py:80-143 | within a generation the counter rises by exactly the number of slots that changed |
| UltraSimpleScript.Evolution | ejemplo_ultra_simple.py:71-143 | every value stays in `[-10, 10]` and the counter rises by at most `poblacion_tamano` per generation |
| UltraSimpleScript.GenerationImproves | ejemplo_ultra_simple.py:71-143 | from one generation to the next no slot gets worse, and a changed slot is strictly better |
| UltraSimpleScript.NeverWorse | ejemplo_ultra_simple.py:71-143 | no slot's `x * x` ever goes up over the run (the "nunca empeoráramos" of line 201) |
| UltraSimpleScript.Squares | ejemplo_ultra_simple.py:177 | entry `k` is `funcion(poblacion[k])` |
| UltraSimpleScript.BestOf | ejemplo_ultra_simple.py:177 | `min(poblacion, key=funcion)` is a member of the population with the least square, the first such in list order |
| UltraSimpleScript.Script.constructor | ejemplo_ultra_simple.py:36-69 | the list holds the initial values and `mejoras_totales` is 0 |
| UltraSimpleScript.Script.Improve | ejemplo_ultra_simple.py:82-143 | one slot of the in-place loop (hard-coded index list, two `if`s, coin, strict replacement with counter) is `StepSpec` |
| UltraSimpleScript.Script.Generation | ejemplo_ultra_simple.py:80-154 | the in-place pass over the slots is `Sweep` |
| UltraSimpleScript.Script.Evolve | ejemplo_ultra_simple.py:71-164 | the generation loop is `Evolution` |
| UltraSimpleScript.Run | ejemplo_ultra_simple.py:36-191 | the whole script: the final list and counter are `Evolution` of the initial values; no slot ended worse than it started; every value is in `[-10, 10]`; at most `generaciones * poblacion_tamano` replacements were counted; `mejor_solucion` is `BestOf` of the final list |

## Left out

- Printing, progress reports and plotting are not modelled. This covers `verbose`, `graficar_convergencia`, the `print` blocks of both scripts and the drivers. The values the ultra-simple script only prints are also left out: `mejor_inicial`, the per-five-generation `mejor`, `peor_solucion` and `promedio`.
- `aplicacion_practica.py`, `funcion_rastrigin` and `funcion_rosenbrock` are not part of this model. The class's objective is a parameter, so any objective may be supplied.
- Random distributions and seeding (`np.random.seed`, uniformity, reproducibility) are not modelled. Every draw is a parameter. The donor positions, the forced gene, the uniform draws of the initial populations and the scripts' crossover draws are constrained by `requires`. The class's per-gene crossover draws and its `CR` are left unconstrained, because no proof needs a bound on them, so the class's results hold for any real `CR` and any real draws.
- IEEE-754 rounding, `np.inf` and NaN are not modelled. Genes are `real`. The initial `mejor_fitness = np.inf` / `mejor_solucion = None` becomes the `Unset` record.
- Convergence quality (that the search approaches 0) is a statistical claim and is not stated.
- Exceptions raised by the objective are not modelled: objectives are total functions.
- Generational.Sphere: the converse of zero-at-origin (a zero sum forces every gene to 0) is not stated, because it needs nonlinear real reasoning the verifier does not do.
- UltraSimpleScript.Square: likewise, `x * x == 0` implying `x == 0` is not stated.
- Generational.Mutate: its contract states only that the mutant lies in the box. The gene-wise formula is stated by `Common.MutantGenes` about the same expression.
- QuickScript.Sweep, QuickScript.Evolution, UltraSimpleScript.Sweep and UltraSimpleScript.Evolution, together with the lemmas about them, are stated for any breeding step that stays in bounds. The scripts' own breeding, `Breeding()`, is the one the methods use.
- QuickScript works for any population of at least four points of the square. `Script` fixes the twenty individuals and fifty generations of the script.
- UltraSimpleScript assumes exactly five individuals. The script's hard-coded `indices = [0, 1, 2, 3, 4]` lists every slot only because `poblacion_tamano` is 5, so `Valid` requires that size.
- In the class and in `ejemplo_rapido.py` the individuals are numpy rows. The model treats them as values, so aliasing between the buffer and the population is not captured. `np.copy` in `cruzar` and in the record update means there is none to capture.
- The code validates nothing. Empty bounds, `lo > hi` and fewer than four individuals appear as preconditions, not as errors. `lo == hi` is allowed, as the code allows it. A `CR` outside `[0, 1]` is neither rejected nor excluded: the class model needs no bound on it.
- Generational.EvolucionDiferencial.constructor: takes every setting explicitly. The default arguments of `__init__` (`tamaño_poblacion=50`, `F=0.8`, `CR=0.7`, `max_generaciones=100`) are not modelled; every caller in the repository passes all four.
- `optimizar` neither resets the record nor clears the history, so repeated calls accumulate. `Generational.EvolucionDiferencial.Optimize` states this.
- The forced gene only guarantees that some trial gene is the mutant's (`Generational.CrossoverTakesFromMutant`). A trial can still equal its target when the mutant differs from it in some genes (`Generational.CrossoverMayReturnTarget`).
