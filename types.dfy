/** The shared data model of the evolvable cellular automaton: cells, grids,
    rules, organisms, fitness functions and the configuration records the
    stores keep. */
module Types {

  datatype Option<+T> = None | Some(value: T)

  datatype Result<+T, +E> = Success(value: T) | Failure(error: E)

  /** A cell is dead (0) or alive (1). */
  type Cell = c: int | 0 <= c <= 1

  /** The complement of a bit as the engine computes it: `b === 0 ? 1 : 0`.
      Any value other than 0 (not only 1) turns into 0. */
  function Flip(b: int): (r: Cell)
    ensures r == 1 <==> b == 0
  {
    if b == 0 then 1 else 0
  }

  /** Rows of equal length, at least one row and at least one column. */
  predicate IsRectangular(g: seq<seq<Cell>>) {
    |g| > 0 && |g[0]| > 0 && forall y :: 0 <= y < |g| ==> |g[y]| == |g[0]|
  }

  /** A toroidal binary field; row y, column x is `g[y][x]`. */
  type Grid = g: seq<seq<Cell>> | IsRectangular(g) witness [[0]]

  /** Every cell of the grid is dead. */
  predicate AllDead(g: Grid) {
    forall y :: 0 <= y < |g| ==> 1 !in g[y]
  }

  /** Every cell of the grid is alive. */
  predicate AllAlive(g: Grid) {
    forall y :: 0 <= y < |g| ==> 0 !in g[y]
  }

  /** A transition rule: when the 8-cell neighbourhood matches `pattern`
      position by position, the cell becomes `nextState`. */
  datatype Rule = Rule(id: string, pattern: seq<int>, nextState: Cell)

  /** One versioned unit of a lineage. `parent` is an identifier only. */
  datatype Organism = Organism(
    id: string,
    grid: Grid,
    rules: seq<Rule>,
    generation: int,
    fitness: real,
    parent: Option<string>)

  /** A scoring function registered under `id`; `name` is a display label. */
  datatype FitnessFunction = FitnessFunction(id: string, name: string, calculate: Grid -> real)

  datatype MutationConfig = MutationConfig(rate: real, stepSize: int, allowMultiPoint: bool)

  /** `Partial<MutationConfig>`: a field that is `None` is absent from the payload. */
  datatype MutationConfigPatch = MutationConfigPatch(
    rate: Option<real>,
    stepSize: Option<int>,
    allowMultiPoint: Option<bool>)

  /** `{ ...config, ...patch }`: the keys present in the patch win, the others
      keep the value they had. */
  function MergeMutationConfig(c: MutationConfig, p: MutationConfigPatch): (r: MutationConfig)
    ensures p.rate.None? ==> r.rate == c.rate
    ensures p.stepSize.None? ==> r.stepSize == c.stepSize
    ensures p.allowMultiPoint.None? ==> r.allowMultiPoint == c.allowMultiPoint
    ensures p.rate.Some? ==> r.rate == p.rate.value
    ensures p.stepSize.Some? ==> r.stepSize == p.stepSize.value
    ensures p.allowMultiPoint.Some? ==> r.allowMultiPoint == p.allowMultiPoint.value
  {
    MutationConfig(
      if p.rate.Some? then p.rate.value else c.rate,
      if p.stepSize.Some? then p.stepSize.value else c.stepSize,
      if p.allowMultiPoint.Some? then p.allowMultiPoint.value else c.allowMultiPoint)
  }

  /** The record of simulation state a store keeps (without view settings). */
  datatype SimulationState = SimulationState(
    currentOrganism: Option<Organism>,
    generation: int,
    history: seq<Organism>,
    fitnessHistory: seq<real>,
    paused: bool,
    speed: real,
    selectedFitnessFunction: string,
    mutationConfig: MutationConfig)

  /** Two patches applied one after the other: the later one wins on every
      key it holds. */
  function ThenPatch(p: MutationConfigPatch, q: MutationConfigPatch): MutationConfigPatch
  {
    MutationConfigPatch(
      if q.rate.Some? then q.rate else p.rate,
      if q.stepSize.Some? then q.stepSize else p.stepSize,
      if q.allowMultiPoint.Some? then q.allowMultiPoint else p.allowMultiPoint)
  }

  /** Merging two partial payloads in turn is merging their combination once;
      in particular merging the same payload twice changes nothing more. */
  lemma MergeTwice(c: MutationConfig, p: MutationConfigPatch, q: MutationConfigPatch)
    ensures MergeMutationConfig(MergeMutationConfig(c, p), q) == MergeMutationConfig(c, ThenPatch(p, q))
    ensures MergeMutationConfig(MergeMutationConfig(c, p), p) == MergeMutationConfig(c, p)
  {
  }

  /** The mutation settings both stores start from. */
  const DefaultMutationConfig := MutationConfig(0.1, 1, false)

  /** The state both stores start from: no organism, generation 0, empty
      histories, paused, speed 1, scored by `maxHeight`. */
  const InitialSimulationState := SimulationState(None, 0, [], [], true, 1.0, "maxHeight", DefaultMutationConfig)

  /** The two history lists move in lockstep: entry i of `fitnessHistory` is
      the fitness of entry i of `history`. */
  predicate HistoryInSync(history: seq<Organism>, fitnessHistory: seq<real>) {
    |history| == |fitnessHistory| &&
    forall i :: 0 <= i < |history| ==> fitnessHistory[i] == history[i].fitness
  }

  /** The fitness of every organism of a history, in order. */
  function Fitnesses(history: seq<Organism>): (f: seq<real>)
    ensures |f| == |history|
    ensures forall i :: 0 <= i < |history| ==> f[i] == history[i].fitness
  {
    if history == [] then []
    else Fitnesses(history[..|history| - 1]) + [history[|history| - 1].fitness]
  }

  /** The two lists are in sync exactly when the fitness list is determined
      by the organism list. */
  lemma InSyncIffFitnesses(history: seq<Organism>, fitnessHistory: seq<real>)
    ensures HistoryInSync(history, fitnessHistory) <==> fitnessHistory == Fitnesses(history)
  {
  }

  /** Appending an organism and its fitness together keeps the lists in sync,
      and cannot bring lists that were out of sync back in sync. */
  lemma AppendInSync(history: seq<Organism>, fitnessHistory: seq<real>, o: Organism)
    ensures HistoryInSync(history + [o], fitnessHistory + [o.fitness]) <==> HistoryInSync(history, fitnessHistory)
  {
    if HistoryInSync(history + [o], fitnessHistory + [o.fitness]) {
      forall i | 0 <= i < |history|
        ensures fitnessHistory[i] == history[i].fitness
      {
        assert (fitnessHistory + [o.fitness])[i] == fitnessHistory[i];
        assert (history + [o])[i] == history[i];
      }
    }
  }
}
