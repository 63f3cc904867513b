/**
  Genetic optimisation of a list of spaces, on values: how one generation comes from the one
  before, and what holds of every run whatever the random choices.
 */
module GeneticSpec {
  import opened Common

  /** A space dictionary: its area and occupancy, either of which may be missing, and the rest. */
  datatype SpaceData = SpaceData(labels: map<string, string>, area: Option<real>, occupancy: Option<int>)

  type Individual = seq<SpaceData>

  type Population = seq<Individual>

  type Objective = Individual -> real

  function AtLeast(low: int, x: int): int { if x < low then low else x }

  function RealMax(x: real, y: real): real { if x < y then y else x }

  function RealAbs(x: real): real { if x < 0.0 then -x else x }

  const DEFAULT_AREA: real := 20.0
  const DEFAULT_OCCUPANCY: int := 4
  const MIN_AREA: real := 5.0

  function AreaOr(s: SpaceData): real { if s.area.Some? then s.area.value else DEFAULT_AREA }

  function OccupancyOr(s: SpaceData): int { if s.occupancy.Some? then s.occupancy.value else DEFAULT_OCCUPANCY }

  // ---------- one generation ----------

  /** `after` is `before` changed by at most `span`, then raised to 1 if it is lower. */
  predicate Nudged(before: int, after: int, span: nat) { AtLeast(1, before - span) <= after <= AtLeast(1, before + span) }

  predicate VariationOf(s: SpaceData, o: SpaceData) {
    && s.labels == o.labels
    && s.area.Some? && s.area.value >= MIN_AREA
    && s.occupancy.Some? && Nudged(OccupancyOr(o), s.occupancy.value, 2)
  }

  predicate MutationOf(s: SpaceData, o: SpaceData) {
    && s.labels == o.labels
    && (s.area == o.area || (o.area.Some? && s.area.Some? && s.area.value >= MIN_AREA))
    && (s.occupancy == o.occupancy
        || (o.occupancy.Some? && s.occupancy.Some? && Nudged(o.occupancy.value, s.occupancy.value, 1)))
  }

  ghost predicate Founders(pop: Population, initial: Individual, populationSize: int) {
    && |pop| == AtLeast(1, populationSize) && pop[0] == initial
    && forall i | 1 <= i < |pop| :: Varied(pop[i], initial)
  }

  predicate Varied(individual: Individual, initial: Individual) {
    |individual| == |initial| && forall j | 0 <= j < |initial| :: VariationOf(individual[j], initial[j])
  }

  predicate MutatedIndividual(after: Individual, before: Individual) {
    |after| == |before| && forall j | 0 <= j < |before| :: MutationOf(after[j], before[j])
  }

  ghost predicate Mutated(after: Population, before: Population) {
    |after| == |before| && forall i | 0 <= i < |before| :: MutatedIndividual(after[i], before[i])
  }

  /** `w` is at least as fit as `a` and `b`, and all three are different individuals. */
  predicate Beats(objective: Objective, pop: Population, w: nat, a: nat, b: nat) {
    && w < |pop| && a < |pop| && b < |pop| && w != a && w != b && a != b
    && objective(pop[a]) <= objective(pop[w]) && objective(pop[b]) <= objective(pop[w])
  }

  ghost predicate Winner(objective: Objective, pop: Population, w: nat) {
    exists a: nat, b: nat :: Beats(objective, pop, w, a, b)
  }

  ghost predicate Won(objective: Objective, pop: Population, individual: Individual) {
    exists w: nat :: w < |pop| && pop[w] == individual && Winner(objective, pop, w)
  }

  ghost predicate WonAt(objective: Objective, pop: Population, selected: Population, i: int)
    requires 0 <= i < |selected|
  {
    Won(objective, pop, selected[i])
  }

  ghost predicate Tournament(objective: Objective, pop: Population, selected: Population) {
    && |selected| == |pop|
    && forall i | 0 <= i < |selected| :: WonAt(objective, pop, selected, i)
  }

  /** A child takes one parent's spaces up to the cut and the other's from there. */
  function Spliced<T>(left: seq<T>, right: seq<T>, cut: nat): seq<T> {
    (if cut <= |left| then left[..cut] else left) + (if cut <= |right| then right[cut..] else [])
  }

  predicate FirstChild<T(==)>(p: seq<T>, q: seq<T>, cut: nat, child: seq<T>) {
    if |p| > 1 then 1 <= cut < |p| && child == Spliced(p, q, cut) else child == p
  }

  predicate SecondChild<T(==)>(p: seq<T>, q: seq<T>, cut: nat, child: seq<T>) {
    if |p| > 1 then child == Spliced(q, p, cut) else child == q
  }

  /** The one after `i` in the ring of `n`. */
  function Next(i: nat, n: nat): (j: nat)
    requires i < n
    ensures j == if i + 1 < n then i + 1 else 0
  {
    (i + 1) % n
  }

  /** The pair at `i` has its children at `i` and `i + 1`; an odd last pair has only the first. */
  ghost predicate Children<T>(selected: seq<seq<T>>, offspring: seq<seq<T>>, i: nat, cut: nat)
    requires |offspring| >= |selected| > i
  {
    var p, q := selected[i], selected[Next(i, |selected|)];
    FirstChild(p, q, cut, offspring[i]) && (i + 1 < |selected| ==> SecondChild(p, q, cut, offspring[i + 1]))
  }

  ghost predicate Paired<T>(selected: seq<seq<T>>, offspring: seq<seq<T>>, i: nat)
    requires |offspring| >= |selected| > i
  {
    exists cut: nat :: Children(selected, offspring, i, cut)
  }

  /** Neighbours are paired, the last with the first when their number is odd. */
  ghost predicate Crossed<T>(selected: seq<seq<T>>, offspring: seq<seq<T>>) {
    && |offspring| == |selected|
    && forall i: nat | i < |selected| && i % 2 == 0 :: Paired(selected, offspring, i)
  }

  datatype Generation = Generation(population: Population, selected: Population, offspring: Population)

  ghost predicate Follows(objective: Objective, g: Generation) {
    Tournament(objective, g.population, g.selected) && Crossed(g.selected, g.offspring)
  }

  ghost predicate BredFromLast(trace: seq<Generation>, g: nat)
    requires g + 1 < |trace|
  {
    Mutated(trace[g + 1].population, trace[g].offspring)
  }

  /** A run: the founders, and then each population bred from the one before. */
  ghost predicate IsRun(objective: Objective, initial: Individual, populationSize: int, trace: seq<Generation>) {
    && (trace != [] ==> Founders(trace[0].population, initial, populationSize))
    && (forall g | 0 <= g < |trace| :: Follows(objective, trace[g]))
    && (forall g: nat | g < |trace| - 1 :: BredFromLast(trace, g))
  }

  // ---------- fitness ----------

  /** The first of the fittest individuals. */
  function ArgMax(objective: Objective, pop: Population): (k: nat)
    requires pop != []
    ensures k < |pop|
    ensures forall i | 0 <= i < |pop| :: objective(pop[i]) <= objective(pop[k])
    ensures forall i | 0 <= i < k :: objective(pop[i]) < objective(pop[k])
    decreases |pop|
  {
    if |pop| == 1 then 0
    else
      var n := |pop| - 1;
      var k := ArgMax(objective, pop[..n]);
      assert forall i | 0 <= i < n :: pop[..n][i] == pop[i];
      if objective(pop[n]) > objective(pop[k]) then n else k
  }

  function Fittest(objective: Objective, pop: Population): Individual
    requires pop != []
  {
    pop[ArgMax(objective, pop)]
  }

  ghost predicate Populated(trace: seq<Generation>) { forall g | 0 <= g < |trace| :: trace[g].population != [] }

  /** The best individual seen by the end of a run; a later one must be strictly fitter. */
  ghost function Champion(objective: Objective, initial: Individual, trace: seq<Generation>): Individual
    requires Populated(trace)
    decreases |trace|
  {
    if trace == [] then initial
    else
      var n := |trace| - 1;
      var best, challenger := Champion(objective, initial, trace[..n]), Fittest(objective, trace[n].population);
      if objective(challenger) > objective(best) then challenger else best
  }

  ghost function BestAfter(objective: Objective, initial: Individual, trace: seq<Generation>): real
    requires Populated(trace)
  {
    objective(Champion(objective, initial, trace))
  }

  /** The stopping rule: over the last nine generations the best fitness has hardly moved. */
  ghost predicate Stalled(objective: Objective, initial: Individual, trace: seq<Generation>)
    requires Populated(trace)
  {
    && |trace| >= 10
    && RealAbs(BestAfter(objective, initial, trace) - BestAfter(objective, initial, trace[..|trace| - 9])) < 0.000001
  }

  ghost predicate Evaluated(initial: Individual, trace: seq<Generation>, v: Individual) {
    v == initial || exists g :: 0 <= g < |trace| && v in trace[g].population
  }

  lemma EvaluatedOneMore(initial: Individual, trace: seq<Generation>, v: Individual)
    requires trace != []
    ensures var n := |trace| - 1;
            Evaluated(initial, trace, v) <==> (Evaluated(initial, trace[..n], v) || v in trace[n].population)
  {
    var n := |trace| - 1;
    if Evaluated(initial, trace[..n], v) && v != initial {
      var g :| 0 <= g < n && v in trace[..n][g].population;
      assert v in trace[g].population;
    }
    if g :| 0 <= g < n && v in trace[g].population {
      assert v in trace[..n][g].population;
    }
  }

  /** The champion was evaluated and nothing that was evaluated is fitter. */
  lemma {:induction false} BestIsMaximum(objective: Objective, initial: Individual, trace: seq<Generation>)
    requires Populated(trace)
    ensures Evaluated(initial, trace, Champion(objective, initial, trace))
    ensures forall v | Evaluated(initial, trace, v) :: objective(v) <= BestAfter(objective, initial, trace)
    decreases |trace|
  {
    if trace != [] {
      var n := |trace| - 1;
      var pop := trace[n].population;
      BestIsMaximum(objective, initial, trace[..n]);
      EvaluatedOneMore(initial, trace, Champion(objective, initial, trace));
      forall u | Evaluated(initial, trace, u) ensures objective(u) <= BestAfter(objective, initial, trace) {
        EvaluatedOneMore(initial, trace, u);
      }
    }
  }

  /** Everything evaluated before the champion is strictly less fit. */
  lemma {:induction false} ChampionIsEarliest(objective: Objective, initial: Individual, trace: seq<Generation>)
    returns (g: nat, k: nat)
    requires Populated(trace) && Champion(objective, initial, trace) != initial
    ensures g < |trace| && k < |trace[g].population|
    ensures trace[g].population[k] == Champion(objective, initial, trace)
    ensures forall i | 0 <= i < k :: objective(trace[g].population[i]) < BestAfter(objective, initial, trace)
    ensures forall v | Evaluated(initial, trace[..g], v) :: objective(v) < BestAfter(objective, initial, trace)
    decreases |trace|
  {
    var n := |trace| - 1;
    var before, pop := trace[..n], trace[n].population;
    if objective(Fittest(objective, pop)) > BestAfter(objective, initial, before) {
      g, k := n, ArgMax(objective, pop);
      BestIsMaximum(objective, initial, before);
    } else {
      g, k := ChampionIsEarliest(objective, initial, before);
      assert before[..g] == trace[..g];
    }
  }

  lemma {:induction false} BestNeverFalls(objective: Objective, initial: Individual, trace: seq<Generation>, n: nat)
    requires Populated(trace) && n <= |trace|
    ensures BestAfter(objective, initial, trace[..n]) <= BestAfter(objective, initial, trace)
    decreases |trace|
  {
    if n < |trace| {
      BestNeverFalls(objective, initial, trace[..|trace| - 1], n);
      assert trace[..|trace| - 1][..n] == trace[..n];
    } else {
      assert trace[..n] == trace;
    }
  }

  // ---------- selection ----------

  /** An individual that all others outdo, with at most one exception, is never selected. */
  lemma LosersAreNotSelected(objective: Objective, pop: Population, selected: Population, w: nat, spared: nat)
    requires Tournament(objective, pop, selected) && w < |pop|
    requires forall a | 0 <= a < |pop| && a != w && a != spared :: objective(pop[w]) < objective(pop[a])
    ensures pop[w] !in selected
  {
    forall i | 0 <= i < |selected| ensures selected[i] != pop[w] {
      assert WonAt(objective, pop, selected, i);
      var v: nat :| v < |pop| && pop[v] == selected[i] && Winner(objective, pop, v);
      var a: nat, b: nat :| Beats(objective, pop, v, a, b);
    }
  }

  // ---------- descent ----------

  /** What survives any number of generations: labels stay, sizes are original or above a floor. */
  predicate Kin(s: SpaceData, o: SpaceData) {
    && s.labels == o.labels
    && (s.area == o.area || (s.area.Some? && s.area.value >= MIN_AREA))
    && (s.occupancy == o.occupancy || (s.occupancy.Some? && s.occupancy.value >= 1))
  }

  /** Occupancy has drifted by at most one a generation since the founders. */
  predicate Drifted(s: SpaceData, o: SpaceData, generation: nat) {
    s.occupancy == o.occupancy
    || (s.occupancy.Some? && s.occupancy.value <= AtLeast(1, OccupancyOr(o) + 2) + generation)
  }

  predicate Descends(individual: Individual, initial: Individual, generation: nat) {
    && |individual| == |initial|
    && forall j | 0 <= j < |initial| :: Kin(individual[j], initial[j]) && Drifted(individual[j], initial[j], generation)
  }

  ghost predicate AllDescend(pop: Population, initial: Individual, generation: nat) {
    forall i | 0 <= i < |pop| :: Descends(pop[i], initial, generation)
  }

  lemma SelectedDescend(objective: Objective, pop: Population, selected: Population, initial: Individual, generation: nat)
    requires Tournament(objective, pop, selected) && AllDescend(pop, initial, generation)
    ensures AllDescend(selected, initial, generation)
  {
    forall i | 0 <= i < |selected| ensures Descends(selected[i], initial, generation) {
      assert WonAt(objective, pop, selected, i);
    }
  }

  lemma SplicedDescends(p: Individual, q: Individual, cut: nat, initial: Individual, generation: nat)
    requires Descends(p, initial, generation) && Descends(q, initial, generation)
    ensures Descends(Spliced(p, q, cut), initial, generation)
  {
  }

  /** Every child is a splice of two of the selected, or of one with itself. */
  lemma ChildIsSpliced<T>(selected: seq<seq<T>>, offspring: seq<seq<T>>, i: nat) returns (p: nat, q: nat, cut: nat)
    requires Crossed(selected, offspring) && i < |selected|
    ensures p < |selected| && q < |selected|
    ensures offspring[i] == Spliced(selected[p], selected[q], cut)
  {
    var k: nat := if i % 2 == 0 then i else i - 1;
    assert k % 2 == 0;
    assert Paired(selected, offspring, k);
    cut :| Children(selected, offspring, k, cut);
    if i == k { p, q := k, Next(k, |selected|); } else { p, q := Next(k, |selected|), k; }
    if |selected[k]| <= 1 { q, cut := p, 0; }
  }

  lemma OffspringDescend(selected: Population, offspring: Population, initial: Individual, generation: nat)
    requires Crossed(selected, offspring) && AllDescend(selected, initial, generation)
    ensures AllDescend(offspring, initial, generation)
  {
    forall i: nat | i < |offspring| ensures Descends(offspring[i], initial, generation) {
      var p, q, cut := ChildIsSpliced(selected, offspring, i);
      SplicedDescends(selected[p], selected[q], cut, initial, generation);
    }
  }

  lemma MutatedDescend(after: Population, before: Population, initial: Individual, generation: nat)
    requires Mutated(after, before) && AllDescend(before, initial, generation)
    ensures AllDescend(after, initial, generation + 1)
  {
    forall i | 0 <= i < |after| ensures Descends(after[i], initial, generation + 1) {
      assert MutatedIndividual(after[i], before[i]) && Descends(before[i], initial, generation);
    }
  }

  lemma FoundersDescend(pop: Population, initial: Individual, populationSize: int)
    requires Founders(pop, initial, populationSize)
    ensures AllDescend(pop, initial, 0)
  {
    forall i | 0 <= i < |pop| ensures Descends(pop[i], initial, 0) {
      if i > 0 { assert Varied(pop[i], initial); }
    }
  }

  /** In every run the population and every individual keep their sizes, and each space keeps its
      labels, its area original or at least 5, its occupancy original or at least 1. */
  lemma {:induction false} EveryoneDescends(objective: Objective, initial: Individual, populationSize: int, trace: seq<Generation>, g: nat)
    requires IsRun(objective, initial, populationSize, trace) && g < |trace|
    ensures |trace[g].population| == AtLeast(1, populationSize)
    ensures AllDescend(trace[g].population, initial, g)
  {
    if g == 0 {
      FoundersDescend(trace[0].population, initial, populationSize);
    } else {
      EveryoneDescends(objective, initial, populationSize, trace, g - 1);
      var t := trace[g - 1];
      assert Follows(objective, t) && BredFromLast(trace, g - 1);
      SelectedDescend(objective, t.population, t.selected, initial, g - 1);
      OffspringDescend(t.selected, t.offspring, initial, g - 1);
      MutatedDescend(trace[g].population, t.offspring, initial, g - 1);
    }
  }

  /** Crossing a pair over loses and duplicates nothing: place by place, the two children hold
      the two parents' spaces. */
  lemma CrossingConserves<T>(selected: seq<seq<T>>, offspring: seq<seq<T>>, i: nat, j: nat)
    requires Crossed(selected, offspring) && i % 2 == 0 && i + 1 < |selected|
    requires |selected[i]| == |selected[i + 1]| && j < |selected[i]|
    ensures |offspring[i]| == |offspring[i + 1]| == |selected[i]|
    ensures multiset{offspring[i][j], offspring[i + 1][j]} == multiset{selected[i][j], selected[i + 1][j]}
  {
    assert Paired(selected, offspring, i);
    var cut: nat :| Children(selected, offspring, i, cut);
    assert (i + 1) % |selected| == i + 1;
  }

  // ---------- the outcome ----------

  function Improvement(best: real, original: real): real {
    (best - original) / RealMax(RealAbs(original), 0.000001) * 100.0
  }

  /** The result of a run is never worse than the start. */
  lemma ImprovementIsNotNegative(objective: Objective, initial: Individual, trace: seq<Generation>)
    requires Populated(trace)
    ensures Improvement(BestAfter(objective, initial, trace), objective(initial)) >= 0.0
    ensures Improvement(BestAfter(objective, initial, trace), objective(initial)) == 0.0
      <==> forall v | Evaluated(initial, trace, v) :: objective(v) <= objective(initial)
  {
    BestIsMaximum(objective, initial, trace);
    var best, original := BestAfter(objective, initial, trace), objective(initial);
    assert Evaluated(initial, trace, initial);
    Scaled(best - original, RealMax(RealAbs(original), 0.000001));
  }

  lemma Scaled(gain: real, scale: real)
    requires gain >= 0.0 && scale > 0.0
    ensures gain / scale * 100.0 >= 0.0
    ensures gain / scale * 100.0 == 0.0 <==> gain == 0.0
  {
    assert gain == (gain / scale) * scale;
  }

  ghost predicate NoNegativeArea(individual: Individual) {
    forall j | 0 <= j < |individual| :: individual[j].area.Some? ==> individual[j].area.value >= 0.0
  }

  lemma DescendantsHaveArea(individual: Individual, initial: Individual, generation: nat)
    requires Descends(individual, initial, generation) && NoNegativeArea(initial)
    ensures NoNegativeArea(individual)
  {
    forall j | 0 <= j < |individual| && individual[j].area.Some? ensures individual[j].area.value >= 0.0 {
      assert Kin(individual[j], initial[j]);
    }
  }

  // ---------- when the result has converged ----------

  /** A run in which nothing beats the initial individual meets it at every generation from the
      tenth on. */
  lemma FlatRunsStall(objective: Objective, initial: Individual, trace: seq<Generation>)
    requires Populated(trace) && forall v | Evaluated(initial, trace, v) :: objective(v) <= objective(initial)
    ensures Stalled(objective, initial, trace) <==> |trace| >= 10
  {
    if |trace| >= 10 {
      var early := trace[..|trace| - 9];
      BestIsMaximum(objective, initial, trace);
      BestIsMaximum(objective, initial, early);
      assert Evaluated(initial, trace, initial) && Evaluated(initial, early, initial);
      BestNeverFalls(objective, initial, trace, |trace| - 9);
    }
  }

  function Uniform(n: nat, individual: Individual): Population { seq(n, _ => individual) }

  /** A founder that differs from the initial individual as little as the rules allow. */
  function Founder(initial: Individual): Individual {
    seq(|initial|, j requires 0 <= j < |initial| =>
      SpaceData(initial[j].labels, Some(RealMax(MIN_AREA, AreaOr(initial[j]))), Some(AtLeast(1, OccupancyOr(initial[j])))))
  }

  lemma UniformBreeds(objective: Objective, pop: Population, w: Individual, n: nat)
    requires n >= 3 && |pop| == n && Won(objective, pop, w)
    ensures Follows(objective, Generation(pop, Uniform(n, w), Uniform(n, w)))
    ensures Mutated(Uniform(n, w), Uniform(n, w))
  {
    var same := Uniform(n, w);
    var cut := if |w| > 1 then 1 else 0;
    assert Spliced(w, w, cut) == w;
    forall i: nat | i < |same| && i % 2 == 0 ensures Paired(same, same, i) {
      assert Children(same, same, i, cut);
    }
    forall i | 0 <= i < n ensures MutatedIndividual(same[i], same[i]) {}
  }

  lemma UniformWins(objective: Objective, w: Individual, n: nat)
    requires n >= 3
    ensures Won(objective, Uniform(n, w), w)
  {
    assert Beats(objective, Uniform(n, w), 0, 1, 2);
  }

  /** The fitter of the initial individual and its founder wins among founders all alike. */
  lemma FounderWins(objective: Objective, initial: Individual, n: nat) returns (w: Individual)
    requires n >= 3
    ensures Won(objective, [initial] + Uniform(n - 1, Founder(initial)), w)
    ensures w == initial || w == Founder(initial)
  {
    var pop := [initial] + Uniform(n - 1, Founder(initial));
    if objective(Founder(initial)) <= objective(initial) {
      w := initial;
      assert Beats(objective, pop, 0, 1, 2);
    } else {
      w := Founder(initial);
      assert Beats(objective, pop, 1, 0, 2);
    }
  }

  /** A run whose last offspring are all alike, and no better than its best. */
  ghost predicate Settled(objective: Objective, initial: Individual, populationSize: int, trace: seq<Generation>, w: Individual) {
    && populationSize >= 3 && trace != [] && Populated(trace) && IsRun(objective, initial, populationSize, trace)
    && trace[|trace| - 1].offspring == Uniform(populationSize, w)
    && objective(w) <= BestAfter(objective, initial, trace)
  }

  /** A generation of individuals all alike, bred and mutated to themselves. */
  ghost predicate AllAlike(g: Generation, n: nat, w: Individual) {
    g == Generation(Uniform(n, w), Uniform(n, w), Uniform(n, w))
  }

  lemma UniformFollows(objective: Objective, w: Individual, n: nat, same: Population)
    requires n >= 3 && same == Uniform(n, w)
    ensures Follows(objective, Generation(same, same, same)) && Mutated(same, same)
  {
    UniformWins(objective, w, n);
    UniformBreeds(objective, same, w, n);
  }

  lemma UniformIsRun(objective: Objective, initial: Individual, populationSize: int, trace: seq<Generation>, w: Individual,
                     same: Population)
    requires Settled(objective, initial, populationSize, trace, w) && same == Uniform(populationSize, w)
    ensures IsRun(objective, initial, populationSize, trace + [Generation(same, same, same)])
  {
    UniformFollows(objective, w, populationSize, same);
    RunGrows(objective, initial, populationSize, trace, Generation(same, same, same), same);
  }

  /** A generation whose fittest is no better than the best so far leaves the best fitness alone. */
  lemma BestStays(objective: Objective, initial: Individual, trace: seq<Generation>, g: Generation, grown: seq<Generation>)
    requires Populated(trace) && g.population != [] && grown == trace + [g]
    requires objective(Fittest(objective, g.population)) <= BestAfter(objective, initial, trace)
    ensures Populated(grown) && BestAfter(objective, initial, grown) == BestAfter(objective, initial, trace)
  {
    ChampionGrows(objective, initial, trace, g);
  }

  lemma UniformOnce(objective: Objective, initial: Individual, populationSize: int, trace: seq<Generation>, w: Individual,
                    g: Generation, grown: seq<Generation>)
    requires Settled(objective, initial, populationSize, trace, w) && AllAlike(g, populationSize, w) && grown == trace + [g]
    ensures Settled(objective, initial, populationSize, grown, w)
    ensures BestAfter(objective, initial, grown) == BestAfter(objective, initial, trace)
  {
    FittestOfUniform(objective, populationSize, w);
    BestStays(objective, initial, trace, g, grown);
    UniformIsRun(objective, initial, populationSize, trace, w, g.population);
  }

  lemma FittestOfUniform(objective: Objective, n: nat, w: Individual)
    requires n > 0
    ensures Fittest(objective, Uniform(n, w)) == w
  {
    var k := ArgMax(objective, Uniform(n, w));
    assert Uniform(n, w)[k] == w;
  }

  lemma FirstSettles(objective: Objective, initial: Individual, n: nat) returns (g: Generation, w: Individual)
    requires n >= 3
    ensures Settled(objective, initial, n, [g], w)
  {
    var pop := [initial] + Uniform(n - 1, Founder(initial));
    w := FounderWins(objective, initial, n);
    forall i | 1 <= i < |pop| ensures Varied(pop[i], initial) { assert pop[i] == Founder(initial); }
    UniformBreeds(objective, pop, w, n);
    g := Generation(pop, Uniform(n, w), Uniform(n, w));
    assert pop[0] == initial && pop[1] == Founder(initial);
    assert w in pop;
    BestIsMaximum(objective, initial, [g]);
    assert [g][0].population == pop;
    assert Evaluated(initial, [g], w);
  }

  /** A run that meets the stopping rule. */
  ghost predicate Converging(objective: Objective, initial: Individual, populationSize: int, trace: seq<Generation>) {
    IsRun(objective, initial, populationSize, trace) && Populated(trace) && Stalled(objective, initial, trace)
  }

  lemma TenGenerationsStall(objective: Objective, initial: Individual, trace: seq<Generation>, first: Generation)
    requires |trace| == 10 && trace[0] == first && first.population != [] && Populated(trace)
    requires BestAfter(objective, initial, trace) == BestAfter(objective, initial, [first])
    ensures Stalled(objective, initial, trace)
  {
    assert trace[..1] == [first];
  }

  lemma SomeRunConverges(objective: Objective, initial: Individual, populationSize: int) returns (trace: seq<Generation>)
    requires populationSize >= 3
    ensures |trace| <= 10 && Converging(objective, initial, populationSize, trace)
  {
    var first, w := FirstSettles(objective, initial, populationSize);
    var best, same := BestAfter(objective, initial, [first]), Uniform(populationSize, w);
    var g := Generation(same, same, same);
    trace := [first];
    for i := 1 to 10
      invariant |trace| == i && trace[0] == first && Settled(objective, initial, populationSize, trace, w)
      invariant BestAfter(objective, initial, trace) == best
    {
      UniformOnce(objective, initial, populationSize, trace, w, g, trace + [g]);
      trace := trace + [g];
    }
    TenGenerationsStall(objective, initial, trace, first);
  }

  /** The optimizer always reports convergence. The report can be right exactly if at least ten
      iterations are allowed: with fewer no run converges, with ten some run does, whatever the
      objective. With a negative area there is no run at all, for numpy raises. */
  lemma ConvergenceIsPossibleIff(objective: Objective, initial: Individual, populationSize: int, iterations: int)
    requires populationSize >= 3 && NoNegativeArea(initial)
    ensures iterations >= 10 <==>
      exists trace :: |trace| <= iterations && Converging(objective, initial, populationSize, trace)
  {
    if iterations >= 10 {
      var trace := SomeRunConverges(objective, initial, populationSize);
      assert Converging(objective, initial, populationSize, trace);
    }
  }

  // ---------- growing a run ----------

  /** `pop` may come next after `trace`. */
  ghost predicate Continues(initial: Individual, populationSize: int, trace: seq<Generation>, pop: Population) {
    if trace == [] then Founders(pop, initial, populationSize) else Mutated(pop, trace[|trace| - 1].offspring)
  }

  ghost predicate InRun(objective: Objective, initial: Individual, populationSize: int, trace: seq<Generation>, pop: Population) {
    IsRun(objective, initial, populationSize, trace) && Populated(trace) && Continues(initial, populationSize, trace, pop)
  }

  lemma RunGrows(objective: Objective, initial: Individual, populationSize: int, trace: seq<Generation>, g: Generation, next: Population)
    requires InRun(objective, initial, populationSize, trace, g.population)
    requires g.population != [] && Follows(objective, g) && Mutated(next, g.offspring)
    ensures InRun(objective, initial, populationSize, trace + [g], next)
  {
    var grown := trace + [g];
    forall k: nat | k < |grown| - 1 ensures BredFromLast(grown, k) {
      if k + 1 < |trace| { assert BredFromLast(trace, k); }
    }
  }

  /** The best fitness after each generation so far. */
  ghost predicate IsHistory(objective: Objective, initial: Individual, trace: seq<Generation>, history: seq<real>)
    requires Populated(trace)
  {
    |history| == |trace| + 1 && forall k | 0 <= k <= |trace| :: history[k] == BestAfter(objective, initial, trace[..k])
  }

  lemma HistoryGrows(objective: Objective, initial: Individual, trace: seq<Generation>, history: seq<real>, g: Generation, best: real)
    requires Populated(trace) && g.population != [] && IsHistory(objective, initial, trace, history)
    requires best == BestAfter(objective, initial, trace + [g])
    ensures IsHistory(objective, initial, trace + [g], history + [best])
  {
    var grown := trace + [g];
    forall k | 0 <= k <= |grown| ensures (history + [best])[k] == BestAfter(objective, initial, grown[..k]) {
      if k <= |trace| { assert grown[..k] == trace[..k]; } else { assert grown[..k] == grown; }
    }
  }

  /** How the loop tests the stopping rule, on the history. */
  predicate HasConverged(history: seq<real>) {
    |history| > 10 && RealAbs(history[|history| - 1] - history[|history| - 10]) < 0.000001
  }

  lemma ConvergedIsStalled(objective: Objective, initial: Individual, trace: seq<Generation>, history: seq<real>)
    requires Populated(trace) && IsHistory(objective, initial, trace, history)
    ensures HasConverged(history) <==> Stalled(objective, initial, trace)
  {
    assert trace[..|trace|] == trace;
  }

  /** No generation before the last has met the stopping rule. */
  ghost predicate NeverStalled(objective: Objective, initial: Individual, trace: seq<Generation>)
    requires Populated(trace)
  {
    forall n | 1 <= n < |trace| :: !Stalled(objective, initial, trace[..n])
  }

  lemma NeverStalledGrows(objective: Objective, initial: Individual, trace: seq<Generation>, g: Generation)
    requires Populated(trace) && g.population != [] && NeverStalled(objective, initial, trace)
    requires trace != [] ==> !Stalled(objective, initial, trace)
    ensures NeverStalled(objective, initial, trace + [g])
  {
    var grown := trace + [g];
    forall n | 1 <= n < |grown| ensures !Stalled(objective, initial, grown[..n]) {
      assert grown[..n] == trace[..n];
      if n == |trace| { assert trace[..n] == trace; }
    }
  }

  /** The population that comes next descends from the initial individual too. */
  lemma NextDescends(objective: Objective, initial: Individual, populationSize: int, trace: seq<Generation>, pop: Population)
    requires IsRun(objective, initial, populationSize, trace) && Continues(initial, populationSize, trace, pop)
    ensures |pop| == AtLeast(1, populationSize) && AllDescend(pop, initial, |trace|)
  {
    if trace == [] {
      FoundersDescend(pop, initial, populationSize);
    } else {
      var n := |trace| - 1;
      EveryoneDescends(objective, initial, populationSize, trace, n);
      assert Follows(objective, trace[n]);
      SelectedDescend(objective, trace[n].population, trace[n].selected, initial, n);
      OffspringDescend(trace[n].selected, trace[n].offspring, initial, n);
      MutatedDescend(pop, trace[n].offspring, initial, n);
    }
  }

  /** So numpy never refuses to mutate: no offspring has a negative area. */
  lemma OffspringHaveArea(objective: Objective, initial: Individual, g: Generation, generation: nat)
    requires Follows(objective, g) && AllDescend(g.population, initial, generation) && NoNegativeArea(initial)
    ensures forall i | 0 <= i < |g.offspring| :: NoNegativeArea(g.offspring[i])
  {
    SelectedDescend(objective, g.population, g.selected, initial, generation);
    OffspringDescend(g.selected, g.offspring, initial, generation);
    forall i | 0 <= i < |g.offspring| ensures NoNegativeArea(g.offspring[i]) {
      DescendantsHaveArea(g.offspring[i], initial, generation);
    }
  }

  lemma ChampionGrows(objective: Objective, initial: Individual, trace: seq<Generation>, g: Generation)
    requires Populated(trace) && g.population != []
    ensures Populated(trace + [g])
    ensures var best, challenger := Champion(objective, initial, trace), Fittest(objective, g.population);
            Champion(objective, initial, trace + [g]) == if objective(challenger) > objective(best) then challenger else best
  {
    assert (trace + [g])[..|trace|] == trace;
  }

  /** What the optimiser's loop keeps: the run so far, its champion and its history. */
  ghost predicate Progress(objective: Objective, initial: Individual, populationSize: int,
                           trace: seq<Generation>, pop: Population, best: Individual, history: seq<real>) {
    && InRun(objective, initial, populationSize, trace, pop)
    && best == Champion(objective, initial, trace)
    && IsHistory(objective, initial, trace, history)
    && NeverStalled(objective, initial, trace)
  }

  lemma ProgressGrows(objective: Objective, initial: Individual, populationSize: int, trace: seq<Generation>,
                      g: Generation, next: Population, best: Individual, newBest: Individual, history: seq<real>)
    requires Progress(objective, initial, populationSize, trace, g.population, best, history)
    requires g.population != [] && Follows(objective, g) && Mutated(next, g.offspring)
    requires trace != [] ==> !HasConverged(history)
    requires var challenger := Fittest(objective, g.population);
             newBest == if objective(challenger) > objective(best) then challenger else best
    ensures Progress(objective, initial, populationSize, trace + [g], next, newBest, history + [objective(newBest)])
  {
    RunGrows(objective, initial, populationSize, trace, g, next);
    ChampionGrows(objective, initial, trace, g);
    HistoryGrows(objective, initial, trace, history, g, objective(newBest));
    ConvergedIsStalled(objective, initial, trace, history);
    NeverStalledGrows(objective, initial, trace, g);
  }

  lemma ProgressDescends(objective: Objective, initial: Individual, populationSize: int, trace: seq<Generation>,
                         pop: Population, best: Individual, history: seq<real>)
    requires Progress(objective, initial, populationSize, trace, pop, best, history)
    ensures |pop| == AtLeast(1, populationSize) && AllDescend(pop, initial, |trace|)
  {
    NextDescends(objective, initial, populationSize, trace, pop);
  }

  /** The returned solution has as many spaces as the initial one, each with its labels. */
  lemma ChampionDescends(objective: Objective, initial: Individual, populationSize: int, trace: seq<Generation>)
    requires IsRun(objective, initial, populationSize, trace) && Populated(trace)
    ensures var best := Champion(objective, initial, trace);
            |best| == |initial| && forall j | 0 <= j < |initial| :: Kin(best[j], initial[j])
  {
    var best := Champion(objective, initial, trace);
    BestIsMaximum(objective, initial, trace);
    if best != initial {
      var g: nat :| g < |trace| && best in trace[g].population;
      EveryoneDescends(objective, initial, populationSize, trace, g);
      assert Descends(best, initial, g);
    }
  }
}
