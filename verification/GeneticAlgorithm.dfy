/**
  The genetic optimiser. Spaces are dictionaries on the heap and individuals are lists of
  references to them, so copying an individual shares its spaces. No method modifies anything it
  was given: the caller's spaces stay as they are.
 */
module Genetic {
  import opened Common
  import opened GeneticSpec
  import opened Modifications

  class Space {
    const labels: map<string, string>
    var area: Option<real>
    var occupancy: Option<int>

    constructor (data: SpaceData)
      ensures View() == data
    {
      labels, area, occupancy := data.labels, data.area, data.occupancy;
    }

    function View(): SpaceData
      reads this
    {
      SpaceData(labels, area, occupancy)
    }

    method Copy() returns (copy: Space)
      ensures fresh(copy) && copy.View() == View()
    {
      copy := new Space(View());
    }
  }

  function Values(spaces: seq<Space>): Individual
    reads spaces
  {
    seq(|spaces|, j requires 0 <= j < |spaces| reads spaces => spaces[j].View())
  }

  ghost function AllSpaces(population: seq<seq<Space>>): set<Space> {
    set individual, space | individual in population && space in individual :: space
  }

  ghost function ValuesAt(population: seq<seq<Space>>, i: nat): Individual
    requires i < |population|
    reads AllSpaces(population)
  {
    assert forall space | space in population[i] :: space in AllSpaces(population) by { assert population[i] in population; }
    Values(population[i])
  }

  ghost function PopulationValues(population: seq<seq<Space>>): Population
    reads AllSpaces(population)
  {
    seq(|population|, i requires 0 <= i < |population| reads AllSpaces(population) => ValuesAt(population, i))
  }

  datatype OptimizationResult = OptimizationResult(
    optimizedSpaces: seq<Space>,
    modifications: seq<Modification>,
    iterations: nat,
    converged: bool,
    fitnessScore: real,
    improvementPercentage: real)

  // ---------- random draws ----------

  /** A normally distributed number; numpy refuses a negative scale. */
  method Normal(scale: real) returns (x: Option<real>)
    ensures x.Some? <==> scale >= 0.0
    ensures scale == 0.0 ==> x == Some(0.0)
  {
    if scale < 0.0 { return None; }
    var noise: real := *;
    return Some(if scale == 0.0 then 0.0 else noise);
  }

  method RandInt(low: int, high: int) returns (x: int)
    requires low < high
    ensures low <= x < high
  {
    x :| low <= x < high;
  }

  /** Three different indices below n. */
  method Choose3(n: nat) returns (a: nat, b: nat, c: nat)
    requires n >= 3
    ensures a < n && b < n && c < n && a != b && a != c && b != c
  {
    a := RandInt(0, n);
    b := RandInt(0, n - 1);
    if b >= a { b := b + 1; }
    c := RandInt(0, n - 2);
    var low, high := if a < b then a else b, if a < b then b else a;
    if c >= low { c := c + 1; }
    if c >= high { c := c + 1; }
  }

  // ---------- breeding ----------

  method Vary(space: Space) returns (varied: Option<Space>)
    ensures varied.Some? <==> AreaOr(space.View()) >= 0.0
    ensures varied.Some? ==> fresh(varied.value) && VariationOf(varied.value.View(), space.View())
  {
    var modified := space.Copy();
    var originalArea := if space.area.Some? then space.area.value else DEFAULT_AREA;
    var variation := Normal(originalArea * 0.1);
    if variation.None? { return None; }
    modified.area := Some(RealMax(MIN_AREA, originalArea + variation.value));
    var originalOccupancy := if space.occupancy.Some? then space.occupancy.value else DEFAULT_OCCUPANCY;
    var change := RandInt(-2, 3);
    modified.occupancy := Some(AtLeast(1, originalOccupancy + change));
    return Some(modified);
  }

  method VaryAll(spaces: seq<Space>) returns (individual: Option<seq<Space>>)
    ensures individual.Some? <==> NoNegativeArea(Values(spaces))
    ensures individual.Some? ==> Varied(Values(individual.value), Values(spaces))
  {
    var built: seq<Space> := [];
    for j := 0 to |spaces|
      invariant |built| == j && forall k | 0 <= k < j :: fresh(built[k]) && VariationOf(built[k].View(), spaces[k].View())
      invariant forall k | 0 <= k < j :: AreaOr(spaces[k].View()) >= 0.0
    {
      var modified := Vary(spaces[j]);
      if modified.None? {
        assert Values(spaces)[j] == spaces[j].View();
        return None;
      }
      built := built + [modified.value];
    }
    return Some(built);
  }

  /** A method fails, with None, where numpy raises. */
  method InitializePopulation(initial: seq<Space>, populationSize: int) returns (population: Option<seq<seq<Space>>>)
    ensures population.Some? <==> populationSize <= 1 || NoNegativeArea(Values(initial))
    ensures population.Some? ==> Founders(PopulationValues(population.value), Values(initial), populationSize)
    ensures population.Some? ==> population.value[0] == initial
  {
    var built := [initial];
    while |built| < populationSize
      invariant 1 <= |built| <= AtLeast(1, populationSize) && built[0] == initial
      invariant forall i | 1 <= i < |built| :: Varied(Values(built[i]), Values(initial))
      invariant |built| > 1 ==> NoNegativeArea(Values(initial))
    {
      var individual := VaryAll(initial);
      if individual.None? { return None; }
      built := built + [individual.value];
    }
    return Some(built);
  }

  /** The fittest of three different individuals, drawn afresh for each place; numpy refuses to
      draw three from fewer. */
  method Selection(ghost objective: Objective, ghost before: Population, population: seq<seq<Space>>, scores: seq<real>)
    returns (selected: Option<seq<seq<Space>>>)
    requires before == PopulationValues(population)
    requires |scores| == |population| && forall i | 0 <= i < |scores| :: scores[i] == objective(before[i])
    ensures selected.None? <==> 1 <= |population| < 3
    ensures selected.Some? ==> Tournament(objective, before, PopulationValues(selected.value))
  {
    var chosen: seq<seq<Space>> := [];
    ghost var winners: seq<nat> := [];
    for i := 0 to |population|
      invariant |chosen| == |winners| == i && before == PopulationValues(population)
      invariant forall k | 0 <= k < i :: winners[k] < |population| && chosen[k] == population[winners[k]]
      invariant forall k | 0 <= k < i :: Winner(objective, before, winners[k])
      invariant i > 0 ==> |population| >= 3
    {
      if |population| < 3 { return None; }
      var a, b, c := Choose3(|population|);
      var w := if scores[a] >= scores[b] && scores[a] >= scores[c] then a else if scores[b] >= scores[c] then b else c;
      ghost var x, y := if w == a then b else a, if w == c then b else c;
      assert Beats(objective, before, w, x, y);
      chosen, winners := chosen + [population[w]], winners + [w];
    }
    ghost var after := PopulationValues(chosen);
    forall i | 0 <= i < |after| ensures WonAt(objective, before, after, i) {
      assert before[winners[i]] == after[i];
    }
    return Some(chosen);
  }

  method Crossover(selected: seq<seq<Space>>) returns (offspring: seq<seq<Space>>)
    ensures Crossed(selected, offspring)
  {
    var n := |selected|;
    ghost var cuts: seq<nat> := [];
    offspring := [];
    var i := 0;
    while i < n
      invariant 0 <= i <= n + 1 && i % 2 == 0 && |offspring| == |cuts| == i
      invariant forall k: nat | k < i && k % 2 == 0 :: Bore(selected, offspring, k, cuts[k])
    {
      var p, q := selected[i], selected[(i + 1) % n];
      var cut: nat := 0;
      if |p| > 1 {
        cut := RandInt(1, |p|);
        offspring := offspring + [Spliced(p, q, cut), Spliced(q, p, cut)];
      } else {
        offspring := offspring + [p, q];
      }
      cuts := cuts + [cut, cut];
      i := i + 2;
    }
    ghost var all := offspring;
    offspring := offspring[..n];
    forall k: nat | k < n && k % 2 == 0 ensures Paired(selected, offspring, k) {
      assert Bore(selected, all, k, cuts[k]);
      assert Children(selected, offspring, k, cuts[k]);
    }
  }

  ghost predicate Bore(selected: seq<seq<Space>>, offspring: seq<seq<Space>>, i: nat, cut: nat) {
    && i < |selected| && i + 1 < |offspring|
    && FirstChild(selected[i], selected[(i + 1) % |selected|], cut, offspring[i])
    && SecondChild(selected[i], selected[(i + 1) % |selected|], cut, offspring[i + 1])
  }

  /** Whether each random draw leads to a mutation is left open, whatever the mutation rate. */
  method Mutate(space: Space) returns (mutated: Option<Space>)
    ensures mutated.Some? ==> fresh(mutated.value) && MutationOf(mutated.value.View(), space.View())
    ensures mutated.None? ==> space.area.Some? && space.area.value < 0.0
  {
    var copy := space.Copy();
    if * {
      if copy.area.Some? {
        var noise := Normal(copy.area.value * 0.05);
        if noise.None? { return None; }
        copy.area := Some(RealMax(MIN_AREA, copy.area.value + noise.value));
      }
      var again := *;
      if copy.occupancy.Some? && again {
        var change := RandInt(-1, 2);
        copy.occupancy := Some(AtLeast(1, copy.occupancy.value + change));
      }
    }
    return Some(copy);
  }

  method MutateAll(individual: seq<Space>) returns (mutated: Option<seq<Space>>)
    ensures mutated.Some? ==> MutatedIndividual(Values(mutated.value), Values(individual))
    ensures mutated.None? ==> !NoNegativeArea(Values(individual))
  {
    var built: seq<Space> := [];
    for j := 0 to |individual|
      invariant |built| == j && forall k | 0 <= k < j :: fresh(built[k]) && MutationOf(built[k].View(), individual[k].View())
    {
      var space := Mutate(individual[j]);
      if space.None? {
        assert Values(individual)[j] == individual[j].View();
        return None;
      }
      built := built + [space.value];
    }
    return Some(built);
  }

  method Mutation(offspring: seq<seq<Space>>) returns (mutated: Option<seq<seq<Space>>>)
    ensures mutated.Some? ==> Mutated(PopulationValues(mutated.value), PopulationValues(offspring))
    ensures mutated.None? ==> exists i :: 0 <= i < |offspring| && !NoNegativeArea(Values(offspring[i]))
  {
    var built: seq<seq<Space>> := [];
    for i := 0 to |offspring|
      invariant |built| == i && forall k | 0 <= k < i :: MutatedIndividual(Values(built[k]), Values(offspring[k]))
    {
      var individual := MutateAll(offspring[i]);
      if individual.None? { return None; }
      built := built + [individual.value];
    }
    return Some(built);
  }

  lemma SplicedValues(p: seq<Space>, q: seq<Space>, cut: nat)
    ensures Values(Spliced(p, q, cut)) == Spliced(Values(p), Values(q), cut)
  {
  }

  lemma ChildrenValues(selected: seq<seq<Space>>, offspring: seq<seq<Space>>, i: nat, cut: nat)
    requires |offspring| == |selected| && i < |selected| && Children(selected, offspring, i, cut)
    ensures Children(PopulationValues(selected), PopulationValues(offspring), i, cut)
  {
    var p, q := selected[i], selected[(i + 1) % |selected|];
    SplicedValues(p, q, cut);
    SplicedValues(q, p, cut);
  }

  /** What holds of the lists of references holds of the values they refer to. */
  lemma CrossedValues(selected: seq<seq<Space>>, offspring: seq<seq<Space>>)
    requires Crossed(selected, offspring)
    ensures Crossed(PopulationValues(selected), PopulationValues(offspring))
  {
    var before, after := PopulationValues(selected), PopulationValues(offspring);
    forall k: nat | k < |selected| && k % 2 == 0 ensures Paired(before, after, k) {
      assert Paired(selected, offspring, k);
      var cut: nat :| Children(selected, offspring, k, cut);
      ChildrenValues(selected, offspring, k, cut);
    }
  }

  // ---------- optimisation ----------

  method Evaluate(objective: Objective, population: seq<seq<Space>>) returns (scores: seq<real>)
    ensures |scores| == |population| && forall i | 0 <= i < |scores| :: scores[i] == objective(Values(population[i]))
  {
    scores := [];
    for i := 0 to |population|
      invariant |scores| == i && forall k | 0 <= k < i :: scores[k] == objective(Values(population[k]))
    {
      scores := scores + [objective(Values(population[i]))];
    }
  }

  method BestIndex(ghost objective: Objective, ghost pop: Population, scores: seq<real>) returns (best: nat)
    requires scores != [] && |scores| == |pop| && forall i | 0 <= i < |pop| :: scores[i] == objective(pop[i])
    ensures best < |pop| && best == ArgMax(objective, pop)
  {
    best := 0;
    for i := 1 to |scores|
      invariant best < i && forall k | 0 <= k < i :: scores[k] <= scores[best]
      invariant forall k | 0 <= k < best :: scores[k] < scores[best]
    {
      if scores[i] > scores[best] { best := i; }
    }
  }

  method CalculateModifications(original: seq<Space>, optimized: seq<Space>) returns (modifications: seq<Modification>)
    ensures var n := if |original| <= |optimized| then |original| else |optimized|;
            modifications == ModificationsUpTo(Values(original), Values(optimized), n)
  {
    modifications := [];
    ghost var before, after := Values(original), Values(optimized);
    var i := 0;
    while i < |original| && i < |optimized|
      invariant 0 <= i <= |original| && i <= |optimized|
      invariant before == Values(original) && after == Values(optimized)
      invariant modifications == ModificationsUpTo(before, after, i)
    {
      var o, p := original[i].View(), optimized[i].View();
      assert o == before[i] && p == after[i];
      modifications := modifications + if ChangesOf(o, p) == NO_CHANGES then [] else [ModificationOf(o, p, i)];
      i := i + 1;
    }
  }

  class GeneticAlgorithm {
    const populationSize: int

    constructor (populationSize: int)
      ensures this.populationSize == populationSize
    {
      this.populationSize := populationSize;
    }

    /** Keeps the best of a generation, if it is strictly better than the best so far. */
    method Challenge(ghost objective: Objective, ghost pop: Population, population: seq<seq<Space>>, scores: seq<real>,
                     best: seq<Space>, bestFitness: real)
      returns (newBest: seq<Space>, newFitness: real)
      requires population != [] && pop == PopulationValues(population)
      requires |scores| == |pop| && forall i | 0 <= i < |scores| :: scores[i] == objective(pop[i])
      requires bestFitness == objective(Values(best))
      ensures Values(newBest) == if objective(Fittest(objective, pop)) > bestFitness then Fittest(objective, pop) else Values(best)
      ensures newFitness == objective(Values(newBest))
    {
      var k := BestIndex(objective, pop, scores);
      if scores[k] > bestFitness { return population[k], scores[k]; }
      return best, bestFitness;
    }

    /** Evaluates a generation and keeps its best. */
    method Judge(objective: Objective, ghost pop: Population, population: seq<seq<Space>>,
                 ghost before: Individual, best: seq<Space>, bestFitness: real)
      returns (scores: seq<real>, newBest: seq<Space>, newFitness: real, ghost after: Individual)
      requires population != [] && pop == PopulationValues(population)
      requires before == Values(best) && bestFitness == objective(before)
      ensures |scores| == |pop| && forall i | 0 <= i < |scores| :: scores[i] == objective(pop[i])
      ensures after == Values(newBest) && newFitness == objective(after)
      ensures after == if objective(Fittest(objective, pop)) > objective(before) then Fittest(objective, pop) else before
    {
      scores := Evaluate(objective, population);
      newBest, newFitness := Challenge(objective, pop, population, scores, best, bestFitness);
      after := Values(newBest);
    }

    /** One generation: selection, crossover and mutation. Only selection can fail. */
    method Breed(ghost objective: Objective, ghost initial: Individual, ghost generation: nat,
                 ghost pop: Population, population: seq<seq<Space>>, scores: seq<real>)
      returns (next: Option<seq<seq<Space>>>, ghost g: Generation)
      requires population != [] && pop == PopulationValues(population)
      requires |scores| == |pop| && forall i | 0 <= i < |scores| :: scores[i] == objective(pop[i])
      requires AllDescend(pop, initial, generation) && (|pop| >= 3 ==> NoNegativeArea(initial))
      ensures next.Some? <==> |population| >= 3
      ensures next.Some? ==> g.population == pop && Follows(objective, g) && Mutated(PopulationValues(next.value), g.offspring)
    {
      g := Generation(pop, [], []);
      var tournament := Selection(objective, pop, population, scores);
      if tournament.None? { return None, g; }
      var selected := tournament.value;
      ghost var winners := PopulationValues(selected);
      var offspring := Crossover(selected);
      assert winners == PopulationValues(selected);
      ghost var children := PopulationValues(offspring);
      assert Crossed(winners, children) by { CrossedValues(selected, offspring); }
      g := Generation(pop, winners, children);
      OffspringHaveArea(objective, initial, g, generation);
      assert forall i | 0 <= i < |offspring| :: Values(offspring[i]) == children[i];
      next := Mutation(offspring);
    }

    /** The body of the loop over generations: evaluate, keep the best, breed. */
    method Step(objective: Objective, ghost start: Individual, ghost trace: seq<Generation>, ghost pop: Population,
                ghost history: seq<real>, population: seq<seq<Space>>, best: seq<Space>, bestFitness: real)
      returns (next: Option<seq<seq<Space>>>, newBest: seq<Space>, newFitness: real, ghost g: Generation)
      requires pop == PopulationValues(population) && bestFitness == objective(Values(best))
      requires Progress(objective, start, populationSize, trace, pop, Values(best), history)
      requires trace != [] ==> !HasConverged(history)
      requires NoNegativeArea(start) || populationSize <= 1
      ensures next.Some? <==> populationSize >= 3
      ensures next.Some? ==>
                Progress(objective, start, populationSize, trace + [g], PopulationValues(next.value), Values(newBest), history + [newFitness])
      ensures newFitness == objective(Values(newBest))
    {
      ghost var before := Values(best);
      ProgressDescends(objective, start, populationSize, trace, pop, before, history);
      var scores;
      ghost var after;
      scores, newBest, newFitness, after := Judge(objective, pop, population, before, best, bestFitness);
      next, g := Breed(objective, start, |trace|, pop, population, scores);
      assert after == Values(newBest);
      if next.Some? {
        ghost var bred := PopulationValues(next.value);
        assert Mutated(bred, g.offspring);
        ProgressGrows(objective, start, populationSize, trace, g, bred, before, after, history);
      }
    }

    /** The loop over generations; it fails where a tournament has too few competitors. */
    method Evolve(objective: Objective, initial: seq<Space>, founders: seq<seq<Space>>, iterations: int)
      returns (failed: bool, best: seq<Space>, bestFitness: real, generation: nat,
               ghost trace: seq<Generation>, ghost final: Population, ghost history: seq<real>)
      requires Founders(PopulationValues(founders), Values(initial), populationSize)
      requires populationSize <= 1 || NoNegativeArea(Values(initial))
      ensures failed <==> iterations >= 1 && populationSize < 3
      ensures !failed ==> generation == |trace| <= AtLeast(0, iterations) && (iterations >= 1 ==> generation >= 1)
      ensures !failed ==> Progress(objective, Values(initial), populationSize, trace, final, Values(best), history)
      ensures !failed ==> bestFitness == objective(Values(best))
      ensures !failed && 1 <= generation < iterations ==> HasConverged(history)
    {
      var population := founders;
      best, bestFitness := initial, objective(Values(initial));
      var scored := [bestFitness];
      var converged := false;
      generation, failed, trace := 0, false, [];
      ghost var start := Values(initial);
      final := PopulationValues(founders);
      while generation < iterations && !converged
        invariant start == Values(initial) && final == PopulationValues(population)
        invariant 0 <= generation <= AtLeast(0, iterations) && |trace| == generation
        invariant if generation == 0 then !converged else populationSize >= 3 && converged == HasConverged(scored)
        invariant Progress(objective, start, populationSize, trace, final, Values(best), scored)
        invariant bestFitness == objective(Values(best))
      {
        ghost var g;
        var next;
        next, best, bestFitness, g := Step(objective, start, trace, final, scored, population, best, bestFitness);
        if next.None? { failed, history := true, scored; return; }
        population := next.value;
        final := PopulationValues(population);
        scored, trace := scored + [bestFitness], trace + [g];
        converged := HasConverged(scored);
        generation := generation + 1;
      }
      history := scored;
    }

    method Optimize(objective: Objective, initial: seq<Space>, iterations: int)
      returns (r: Result<OptimizationResult, string>, ghost trace: seq<Generation>)
      ensures r.Ok? <==> populationSize >= 3 && iterations >= 1 && NoNegativeArea(Values(initial))
      ensures r.Ok? ==> IsRun(objective, Values(initial), populationSize, trace) && Populated(trace)
      ensures r.Ok? ==> 1 <= |trace| <= iterations && r.value.iterations == |trace| && r.value.converged
      ensures r.Ok? ==> NeverStalled(objective, Values(initial), trace)
      ensures r.Ok? && |trace| < iterations ==> Stalled(objective, Values(initial), trace)
      ensures r.Ok? && iterations <= 9 ==> !Stalled(objective, Values(initial), trace)
      ensures r.Ok? ==> Values(r.value.optimizedSpaces) == Champion(objective, Values(initial), trace)
      ensures r.Ok? ==> r.value.fitnessScore == BestAfter(objective, Values(initial), trace)
      ensures r.Ok? ==> r.value.improvementPercentage
                        == Improvement(BestAfter(objective, Values(initial), trace), objective(Values(initial)))
      ensures r.Ok? ==> |r.value.optimizedSpaces| == |initial|
                        && r.value.modifications == ModificationsUpTo(Values(initial), Values(r.value.optimizedSpaces), |initial|)
    {
      trace := [];
      var founders := InitializePopulation(initial, populationSize);
      if founders.None? { return Err("genetic_algorithm"), trace; }
      var failed, best, bestFitness, generations;
      ghost var final, history;
      failed, best, bestFitness, generations, trace, final, history := Evolve(objective, initial, founders.value, iterations);
      if failed || generations == 0 { return Err("genetic_algorithm"), trace; }
      ghost var start := Values(initial);
      ChampionDescends(objective, start, populationSize, trace);
      ConvergedIsStalled(objective, start, trace, history);
      var modifications := CalculateModifications(initial, best);
      var improvement := Improvement(bestFitness, objective(Values(initial)));
      r := Ok(OptimizationResult(best, modifications, generations, true, bestFitness, improvement));
    }
  }
}
