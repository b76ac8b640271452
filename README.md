# Evolvable cellular automaton — a Dafny model

This project models the computational core of an evolvable cellular
automaton written in TypeScript. An *organism* is a binary grid on a torus
plus a list of transition *rules*. One generation rewrites every cell by the
first rule whose pattern matches the cell's 8-cell Moore neighbourhood. The
rules are then mutated, the new grid is scored by a registered *fitness
function*, and the offspring is appended to a history kept in a store.

The model covers:

- **The engine** (`engine.dfy`, module `Engine`): toroidal neighbourhoods,
  first-match rule lookup, the next-generation grid, rule mutation, and the
  constructors for grids, random rule sets and organisms. `Math.random()`
  draws and `uuidv4()` ids are explicit inputs. A draw is a real in [0, 1),
  so every branch the source takes on a random value can be stated.
- **The scorers** (`scorers.dfy`, module `Scorers`): the five built-in
  fitness functions `maxHeight`, `maxWidth`, `aspectRatio`, `density` and
  `symmetry`. Each is a specification function with the properties the
  score promises. Each source loop is a method proved equal to its function.
- **The registry** (`fitness.dfy`, module `Fitness`): the `FitnessCalculator`
  class. Its JavaScript `Map` is a `map` field plus a key list in insertion
  order, because `getAllFunctions` returns entries in that order.
- **The stores** (`evolution_slice.dfy`, `simulation_slice.dfy`): each Redux
  slice is a class whose fields are the slice state. Each reducer is a
  method whose `modifies` clause names exactly the fields it writes.
- **One animation step** (`tick.dfy`, module `Tick`): the update `App.tsx`
  performs. It evolves the grid, scores it, mutates the rules, then records
  the offspring.
- **The shared types** (`types.dfy`, module `Types`): cells, grids, rules,
  organisms, configuration records, and the history-sync invariant.

A `Grid` is a non-empty rectangular sequence of rows with at least one
column, and every cell is 0 or 1. The model follows the code as written,
and these behaviours of it are worth knowing:

- The symmetry score divides the match count by `maxScore`, which is
  `height * width / 2` (src/core/fitnessCalculator.ts:114). Each pass
  visits half of the cells, and both passes include the middle row or
  column of an odd extent. So the score is not confined to [0, 1]: an
  even-by-even grid symmetric in both axes scores exactly 2
  (`Scorers.Symmetry`).
- A rule is skipped only when its draw *exceeds* the rate. At rate 0 a draw
  of exactly 0 still mutates the rule
  (`Engine.ZeroRateKeepsRulesUnlessDrawIsZero`).
- The two stores reset differently. The `evolution` store clears the run and
  keeps the settings. The `simulation` store returns to the whole initial
  state.

## Model

| member | source | states |
|---|---|---|
| Types.Flip | src/core/simulationEngine.ts:73 | the complement of a bit is 1 exactly when the bit is 0 |
| Types.MergeMutationConfig | src/store/evolutionSlice.ts:47-49 | each key present in the partial payload takes the payload's value; each absent key keeps its old value |
| Types.MergeTwice | src/store/simulationSlice.ts:40-42 | merging two payloads in turn equals merging their later-wins combination once; merging a payload twice equals merging it once |
| Types.InSyncIffFitnesses | src/store/evolutionSlice.ts:33-36 | the history lists are in lockstep exactly when the fitness list is the list of the organisms' fitnesses |
| Types.AppendInSync | src/store/evolutionSlice.ts:33-36 | pushing an organism and its fitness together keeps the lists in lockstep, and lists out of lockstep stay out |
| Engine.Wrap | src/core/simulationEngine.ts:50-51 | a coordinate one step off the grid wraps into range: -1 goes to n-1, n goes to 0, others stay |
| Engine.Slot | src/core/simulationEngine.ts:47-49 | an offset's place in the enumeration (dy outer, dx inner, centre skipped) is below 8 and names that offset |
| Engine.Neighborhood | src/core/simulationEngine.ts:45-56 | the neighbourhood has exactly 8 values; value k is the cell at offset k, read on the torus |
| Engine.GetNeighborhood | src/core/simulationEngine.ts:45-56 | the nested offset loops with `continue` at the centre produce exactly the 8-value neighbourhood |
| Engine.Matches | src/core/simulationEngine.ts:59-61 | a pattern matches a neighbourhood exactly when it is a prefix of it: an index past the neighbourhood's end never matches |
| Engine.FindMatchingRule | src/core/simulationEngine.ts:58-62 | no rule is found exactly when no pattern matches; a found rule matches, and every earlier rule does not |
| Engine.NextCell | src/core/simulationEngine.ts:36-38 | a cell's next state is the first matching rule's `nextState`, or 0; under an empty rule list every cell is dead |
| Engine.NextCellLiveOnlyByRule | src/core/simulationEngine.ts:36-38 | when no rule matches the cell is dead; when the cell is live, some matching rule has next state 1 |
| Engine.EvolveGrid | src/core/simulationEngine.ts:30-43 | the new grid has the input's shape; each cell is the next state of the first matching rule, or 0; with no rules the grid is all dead |
| Engine.MatchesIffEqual | src/core/simulationEngine.ts:59-61 | a length-8 pattern matches a neighbourhood exactly when it equals it element by element |
| Engine.NextCellIsFirstMatch | src/core/simulationEngine.ts:36-38 | if rule i matches and no earlier rule does, the cell becomes rule i's next state |
| Engine.Scale | src/core/simulationEngine.ts:72 | `Math.floor(u * n)` of a draw is a valid index in [0, n) |
| Engine.FlipCount | src/core/simulationEngine.ts:69 | the number of flips lies in [1, stepSize] when stepSize is at least 1 |
| Engine.ApplyFlips | src/core/simulationEngine.ts:71-74 | flipping positions in place keeps the pattern's length |
| Engine.FlipsDifferInAtMost | src/core/simulationEngine.ts:71-74 | after k flips the pattern differs from the original in at most k positions |
| Engine.Mutated | src/core/simulationEngine.ts:65-80 | the callback returns the rule itself or a rule under the fresh id; the pattern keeps its length; the next state is kept or complemented |
| Engine.MutateRule | src/core/simulationEngine.ts:65-80 | the array-copy-and-flip loop computes the mutated rule `Mutated` describes |
| Engine.MutateRules | src/core/simulationEngine.ts:64-82 | the result has one rule per input rule, in the same positions, each mutated by its own draws |
| Engine.SkippedRuleUnchanged | src/core/simulationEngine.ts:66 | a rule whose draw exceeds the rate comes back unchanged, id included |
| Engine.MutatedRuleShape | src/core/simulationEngine.ts:68-80 | a mutated rule has the fresh id and its old pattern length; it keeps its pattern without multi-point; otherwise 1 to stepSize flips change at most that many positions; its next state is kept or complemented |
| Engine.FullRateAlwaysMutates | src/core/simulationEngine.ts:66 | at rate 1 or more every rule is mutated |
| Engine.ZeroRateKeepsRulesUnlessDrawIsZero | src/core/simulationEngine.ts:66 | at rate 0 a rule is kept when its draw is positive, and mutated when its draw is exactly 0 |
| Engine.CreateInitialGrid | src/core/simulationEngine.ts:16-20 | the grid is height by width, and a cell is alive exactly when its draw exceeds 0.8 |
| Engine.CreateRandomRules | src/core/simulationEngine.ts:22-28 | there are `count` rules with the supplied ids, each with an 8-entry 0/1 pattern; a bit or next state is 1 exactly when its draw exceeds 0.5 |
| Engine.RandomRulesHaveDistinctIds | src/core/simulationEngine.ts:22-24 | distinct fresh ids give rules with distinct ids |
| Engine.CreateOrganism | src/core/simulationEngine.ts:84-92 | the organism keeps the given grid, rules, generation and fitness, has the fresh id and no parent |
| Engine.CreateOrganismDefaults | src/core/simulationEngine.ts:84 | when generation and fitness are not passed they are 0, and no parent is set |
| Scorers.MaxHeight | src/core/fitnessCalculator.ts:23-30 | the score r is at most the row count; row r-1 holds a live cell and no later row does; it is 0 exactly for an all-dead grid |
| Scorers.CalculateMaxHeight | src/core/fitnessCalculator.ts:24-29 | the bottom-up scan with early return yields `MaxHeight` |
| Scorers.MaxHeightOfLowestLiveRow | src/core/fitnessCalculator.ts:24-27 | a grid whose last live row is r scores r + 1 |
| Scorers.CountLive | src/core/fitnessCalculator.ts:39 | a row's live count is at most its length; it is 0 exactly without a 1, and the full length exactly without a 0 |
| Scorers.MaxWidth | src/core/fitnessCalculator.ts:36-43 | the score is at most the width, at least every row's live count, attained by some row, and 0 exactly for an all-dead grid |
| Scorers.CalculateMaxWidth | src/core/fitnessCalculator.ts:37-42 | the running-maximum loop yields `MaxWidth` |
| Scorers.CalculateDensity | src/core/fitnessCalculator.ts:78-89 | counting live cells cell by cell and dividing by rows × columns yields `Density` |
| Scorers.LiveCountBounds | src/core/fitnessCalculator.ts:79-86 | the live count of n rows is at most n × width; it is 0 exactly when those rows are dead and maximal exactly when they are alive |
| Scorers.Density | src/core/fitnessCalculator.ts:78-89 | density lies in [0, 1]; it is 0 exactly for an all-dead grid and 1 exactly for an all-alive grid |
| Scorers.BelowHalf | src/core/fitnessCalculator.ts:102 | the guard `x < n / 2` under real division admits exactly the x below ⌈n/2⌉, the middle index of an odd n included |
| Scorers.HorizontalPass | src/core/fitnessCalculator.ts:101-105 | the horizontal loops count, row by row, the left-half cells equal to their mirror cell |
| Scorers.VerticalPass | src/core/fitnessCalculator.ts:108-112 | the vertical loops count, column by column, the top-half cells equal to their mirror cell |
| Scorers.CalculateSymmetry | src/core/fitnessCalculator.ts:95-116 | both passes and the final division yield `Symmetry` |
| Scorers.SymmetryCount | src/core/fitnessCalculator.ts:96-112 | the loops' `score` is at most rows·⌈w/2⌉ + cols·⌈h/2⌉, the number of positions the two passes visit, and a grid symmetric in both axes reaches that bound exactly |
| Scorers.Symmetry | src/core/fitnessCalculator.ts:114-115 | `score / maxScore` is never negative, and an even-by-even grid symmetric in both axes scores 2, not 1 |
| Scorers.TightBoxUnique | src/core/fitnessCalculator.ts:50-64 | at most one box holds every live cell with each edge touching a live cell |
| Scorers.TightBox | src/core/fitnessCalculator.ts:50-66 | there is no box exactly for an all-dead grid; otherwise the box is the tight box, with minY ≤ maxY and minX ≤ maxX |
| Scorers.BoundingBox | src/core/fitnessCalculator.ts:50-64 | the min/max scan finds no live cell exactly for an all-dead grid, and otherwise finds the tight box |
| Scorers.AspectRatio | src/core/fitnessCalculator.ts:66-71 | the score is 0 without live cells and lies in (0, 1] otherwise |
| Scorers.GoldenScore | src/core/fitnessCalculator.ts:68-71 | the golden-ratio formula on a box of positive width lies in (0, 1] |
| Scorers.CalculateAspectRatio | src/core/fitnessCalculator.ts:49-72 | the scan followed by the golden-ratio formula yields `AspectRatio` |
| Fitness.BuiltInRegistrations | src/core/fitnessCalculator.ts:19-117 | the built-in entries are exactly the five built-in ids, each stored under its own id, with its display name (`Maximum Height`, `Maximum Width`, `Golden Ratio`, `Pattern Density`, `Symmetry Score`) and its scorer |
| Fitness.KeyOrderListsKeys | src/core/fitnessCalculator.ts:128-130 | the key list holds every key of the map, only keys, and each key once |
| Fitness.FitnessCalculator.constructor | src/core/fitnessCalculator.ts:7-10 | a fresh registry holds exactly `maxHeight`, `maxWidth`, `aspectRatio`, `density` and `symmetry`, in that order, each with its built-in scorer |
| Fitness.FitnessCalculator.RegisterFunction | src/core/fitnessCalculator.ts:120-122 | the entry for the function's id is inserted or replaced and every other entry is kept; a new id goes last in iteration order, a replaced one keeps its place |
| Fitness.FitnessCalculator.GetFunction | src/core/fitnessCalculator.ts:124-126 | an entry is returned exactly when the id is registered, and it is the entry stored under that id |
| Fitness.FitnessCalculator.GetAllFunctions | src/core/fitnessCalculator.ts:128-130 | every registered entry once, in insertion order, and nothing else |
| Fitness.FitnessCalculator.CalculateFitness | src/core/fitnessCalculator.ts:132-136 | an unregistered id is an error with the source's message; otherwise the result is the registered function applied to the grid |
| Fitness.BuiltInScores | src/core/fitnessCalculator.ts:19-117 | on a fresh registry each built-in id scores with its scorer, and an unknown id fails |
| EvolutionSlice.MergeViewConfig | src/store/evolutionSlice.ts:50-52 | each view key present in the partial payload takes the payload's value; each absent key keeps its old value |
| EvolutionSlice.EvolutionStore.constructor | src/store/evolutionSlice.ts:4-24 | no organism, generation 0, empty histories in lockstep, paused, speed 1, `maxHeight`, mutation config {0.1, 1, false}, default view settings |
| EvolutionSlice.EvolutionStore.SetCurrentOrganism | src/store/evolutionSlice.ts:30-32 | sets the current organism and no other field |
| EvolutionSlice.EvolutionStore.AddToHistory | src/store/evolutionSlice.ts:33-37 | appends the organism and its fitness, sets the generation to the organism's, keeps the lockstep invariant |
| EvolutionSlice.EvolutionStore.SetPaused | src/store/evolutionSlice.ts:38-40 | sets `paused` and no other field |
| EvolutionSlice.EvolutionStore.SetSpeed | src/store/evolutionSlice.ts:41-43 | sets `speed` and no other field |
| EvolutionSlice.EvolutionStore.SetSelectedFitnessFunction | src/store/evolutionSlice.ts:44-46 | sets the selected scorer id and no other field |
| EvolutionSlice.EvolutionStore.SetMutationConfig | src/store/evolutionSlice.ts:47-49 | merges the partial payload into the mutation config and changes no other field |
| EvolutionSlice.EvolutionStore.UpdateViewConfig | src/store/evolutionSlice.ts:50-52 | merges the partial payload into the view config and changes no other field |
| EvolutionSlice.EvolutionStore.ResetSimulation | src/store/evolutionSlice.ts:53-59 | clears the organism, generation and both histories and pauses; speed, scorer, mutation and view settings are kept |
| SimulationSlice.SimulationStore.constructor | src/store/simulationSlice.ts:4-17 | the state is the initial state: no organism, generation 0, empty histories, paused, speed 1, `maxHeight`, {0.1, 1, false} |
| SimulationSlice.SimulationStore.SetCurrentOrganism | src/store/simulationSlice.ts:23-25 | sets the current organism and no other field |
| SimulationSlice.SimulationStore.AddToHistory | src/store/simulationSlice.ts:26-30 | appends the organism and its fitness, sets the generation to the organism's, keeps the lockstep invariant |
| SimulationSlice.SimulationStore.SetPaused | src/store/simulationSlice.ts:31-33 | sets `paused` and no other field |
| SimulationSlice.SimulationStore.SetSpeed | src/store/simulationSlice.ts:34-36 | sets `speed` and no other field |
| SimulationSlice.SimulationStore.SetSelectedFitnessFunction | src/store/simulationSlice.ts:37-39 | sets the selected scorer id and no other field |
| SimulationSlice.SimulationStore.SetMutationConfig | src/store/simulationSlice.ts:40-42 | merges the partial payload into the mutation config and changes no other field |
| SimulationSlice.SimulationStore.ResetSimulation | src/store/simulationSlice.ts:43-45 | the whole state, settings included, becomes the initial state |
| Tick.Tick | src/App.tsx:56-81 | nothing happens without an organism or while paused; an unregistered scorer fails with no state change; otherwise the offspring has the evolved grid, the mutated rules, generation + 1, the fitness of its grid and no parent, and it becomes current and is appended to the history |

## Left out

- Randomness and ids: every `Math.random()` draw and `uuidv4()` id is a parameter. Their distributions are not modelled, so no probability is stated. The format and uniqueness of uuids are not modelled either.
- Floating point: density, symmetry and aspect ratio are computed on exact reals. IEEE-754 rounding of the divisions and of the golden-ratio formula is not modelled. Speed and fitness are reals, and the generation counter is an unbounded integer.
- Empty and jagged grids: a `Grid` has at least one row and one column, and rows of equal length, so these cases cannot arise here. In the source, on `[]` the `aspectRatio`, `density` and `symmetry` scorers throw a `TypeError` reading `grid[0].length` (src/core/fitnessCalculator.ts:51, 80, 98), `maxHeight` and `maxWidth` return 0, and `evolveGrid` returns `[]`. On `[[]]` (one empty row) `density` and `symmetry` divide 0 by 0 and return `NaN`, while `aspectRatio` finds no live cell and returns 0.
- Engine.CreateInitialGrid: requires width and height of at least 1, because a zero extent gives an array outside the `Grid` type.
- Engine.MutateRule: requires a non-empty pattern when multi-point flips are on. On an empty pattern the source writes index 0 and grows the array. Every rule from `createRandomRules` has 8 entries.
- Scorer functions are pure total functions `Grid -> real`. A registered JavaScript function that throws or reads outside state is not modelled.
- Partial payloads: an absent key is `None`. A key present with the value `undefined` would overwrite the field with `undefined` under the object spread; that case is not modelled.
- Redux and Immer: a reducer is an in-place update of the store object. Action creators, dispatch, `store.ts`, and the immutable snapshots Immer produces are not modelled.
- Tick.Tick: the `requestAnimationFrame` scheduling and the `deltaTime >= 1000 / speed` gate are not modelled. The step is the update that runs once the gate passes. The exception from an unknown scorer is a `Failed` outcome with the store unchanged; the source's exception also ends the animation loop.
- The initial-organism effect in `App.tsx`, the React/MUI components, PIXI rendering and their colour, zoom and pan arithmetic are not modelled.
- The singleton `getInstance` accessors are not modelled. Each registry and store is one explicitly constructed object.
