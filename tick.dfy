/** One update of the animation loop: evolve the current organism's grid,
    score it, mutate its rules, and record the offspring in the store. The
    frame timing that decides when an update fires is not modelled. */
module Tick {
  import opened Types
  import Engine
  import Fitness
  import EvolutionSlice

  datatype TickOutcome =
    | Idle                      // no organism yet, or paused: nothing happens
    | Advanced(offspring: Organism)
    | Failed(error: string)     // the selected scorer is not registered

  /** The mutation draws fit the rules of the organism they are used on. */
  predicate DrawsFit(rules: seq<Rule>, config: MutationConfig, draws: seq<Engine.MutationDraws>) {
    |draws| == |rules| && forall i :: 0 <= i < |rules| ==> Engine.WellDrawn(rules[i], config, draws[i])
  }

  /** The offspring one update makes from `parent`: its grid is the parent's
      grid evolved by the parent's rules, its rules are the parent's rules
      mutated, its generation is one more, its fitness is `score` of its
      grid, and it names no parent. */
  ghost predicate IsOffspring(o: Organism, parent: Organism, config: MutationConfig,
                              draws: seq<Engine.MutationDraws>, freshId: string, score: Grid -> real)
    requires DrawsFit(parent.rules, config, draws)
  {
    && o.id == freshId && o.parent == None
    && o.generation == parent.generation + 1
    && |o.grid| == |parent.grid| && |o.grid[0]| == |parent.grid[0]|
    && (forall y, x :: 0 <= y < |parent.grid| && 0 <= x < |parent.grid[0]| ==>
          o.grid[y][x] == Engine.NextCell(parent.grid, parent.rules, x, y))
    && o.fitness == score(o.grid)
    && |o.rules| == |parent.rules|
    && (forall i :: 0 <= i < |o.rules| ==> o.rules[i] == Engine.Mutated(parent.rules[i], config, draws[i]))
  }

  method Tick(store: EvolutionSlice.EvolutionStore, registry: Fitness.FitnessCalculator,
              draws: seq<Engine.MutationDraws>, freshId: string)
    returns (outcome: TickOutcome)
    requires store.currentOrganism.Some? ==>
               DrawsFit(store.currentOrganism.value.rules, store.mutationConfig, draws)
    modifies store`currentOrganism, store`history, store`fitnessHistory, store`generation
    ensures outcome.Idle? <==> old(store.currentOrganism).None? || store.paused
    ensures outcome.Failed? <==> !outcome.Idle? && store.selectedFitnessFunction !in registry.functions
    ensures !outcome.Advanced? ==>
              store.currentOrganism == old(store.currentOrganism) && store.generation == old(store.generation)
              && store.history == old(store.history) && store.fitnessHistory == old(store.fitnessHistory)
    ensures outcome.Advanced? ==>
              && old(store.currentOrganism).Some?
              && store.selectedFitnessFunction in registry.functions
              && IsOffspring(outcome.offspring, old(store.currentOrganism).value, store.mutationConfig,
                             draws, freshId, registry.functions[store.selectedFitnessFunction].calculate)
              && store.currentOrganism == Some(outcome.offspring)
              && store.history == old(store.history) + [outcome.offspring]
              && store.fitnessHistory == old(store.fitnessHistory) + [outcome.offspring.fitness]
              && store.generation == outcome.offspring.generation
    ensures old(store.Valid()) ==> store.Valid()
  {
    if store.currentOrganism.None? || store.paused {
      return Idle;
    }
    var parent := store.currentOrganism.value;
    var grid := Engine.EvolveGrid(parent.grid, parent.rules);
    var fitness := registry.CalculateFitness(grid, store.selectedFitnessFunction);
    if fitness.Failure? {
      return Failed(fitness.error);
    }
    var rules := Engine.MutateRules(parent.rules, store.mutationConfig, draws);
    var offspring := Engine.CreateOrganism(grid, rules, freshId, parent.generation + 1, fitness.value);
    store.SetCurrentOrganism(offspring);
    store.AddToHistory(offspring);
    outcome := Advanced(offspring);
  }
}
