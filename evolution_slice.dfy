/** The `evolution` store: the simulation record plus the view settings, and
    the reducers that update it in place. */
module EvolutionSlice {
  import opened Types

  datatype ViewMode = Phenotype | Multiway | Morphospace

  datatype Pan = Pan(x: real, y: real)

  datatype ViewConfig = ViewConfig(
    showBreakthroughs: bool,
    highlightActiveRules: bool,
    viewMode: ViewMode,
    zoom: real,
    pan: Pan)

  /** `Partial<ViewConfig>`: a field that is `None` is absent from the payload. */
  datatype ViewConfigPatch = ViewConfigPatch(
    showBreakthroughs: Option<bool>,
    highlightActiveRules: Option<bool>,
    viewMode: Option<ViewMode>,
    zoom: Option<real>,
    pan: Option<Pan>)

  /** `{ ...viewConfig, ...patch }`: the keys present in the patch win, the
      others keep the value they had. */
  function MergeViewConfig(c: ViewConfig, p: ViewConfigPatch): (r: ViewConfig)
    ensures p.showBreakthroughs.None? ==> r.showBreakthroughs == c.showBreakthroughs
    ensures p.highlightActiveRules.None? ==> r.highlightActiveRules == c.highlightActiveRules
    ensures p.viewMode.None? ==> r.viewMode == c.viewMode
    ensures p.zoom.None? ==> r.zoom == c.zoom
    ensures p.pan.None? ==> r.pan == c.pan
    ensures p.showBreakthroughs.Some? ==> r.showBreakthroughs == p.showBreakthroughs.value
    ensures p.highlightActiveRules.Some? ==> r.highlightActiveRules == p.highlightActiveRules.value
    ensures p.viewMode.Some? ==> r.viewMode == p.viewMode.value
    ensures p.zoom.Some? ==> r.zoom == p.zoom.value
    ensures p.pan.Some? ==> r.pan == p.pan.value
  {
    ViewConfig(
      if p.showBreakthroughs.Some? then p.showBreakthroughs.value else c.showBreakthroughs,
      if p.highlightActiveRules.Some? then p.highlightActiveRules.value else c.highlightActiveRules,
      if p.viewMode.Some? then p.viewMode.value else c.viewMode,
      if p.zoom.Some? then p.zoom.value else c.zoom,
      if p.pan.Some? then p.pan.value else c.pan)
  }

  /** The view settings the store starts from. */
  const InitialViewConfig := ViewConfig(true, false, Phenotype, 1.0, Pan(0.0, 0.0))

  /** The store's state; each reducer is a method that changes only the
      fields its `modifies` clause names. */
  class EvolutionStore {
    var currentOrganism: Option<Organism>
    var generation: int
    var history: seq<Organism>
    var fitnessHistory: seq<real>
    var paused: bool
    var speed: real
    var selectedFitnessFunction: string
    var mutationConfig: MutationConfig
    var viewConfig: ViewConfig

    /** The two history lists are in lockstep. */
    ghost predicate Valid()
      reads this
    {
      HistoryInSync(history, fitnessHistory)
    }

    /** The simulation part of the state, without the view settings. */
    function Simulation(): SimulationState
      reads this
    {
      SimulationState(currentOrganism, generation, history, fitnessHistory,
                      paused, speed, selectedFitnessFunction, mutationConfig)
    }

    /** The initial state. */
    constructor ()
      ensures Valid()
      ensures Simulation() == InitialSimulationState
      ensures viewConfig == InitialViewConfig
    {
      currentOrganism := None;
      generation := 0;
      history := [];
      fitnessHistory := [];
      paused := true;
      speed := 1.0;
      selectedFitnessFunction := "maxHeight";
      mutationConfig := DefaultMutationConfig;
      viewConfig := InitialViewConfig;
    }

    method SetCurrentOrganism(o: Organism)
      modifies this`currentOrganism
      ensures currentOrganism == Some(o)
    {
      currentOrganism := Some(o);
    }

    /** Appends the organism and its fitness together and moves the generation
      counter to the organism's generation; the histories stay in lockstep
      exactly when they were. */
    method AddToHistory(o: Organism)
      modifies this`history, this`fitnessHistory, this`generation
      ensures history == old(history) + [o]
      ensures fitnessHistory == old(fitnessHistory) + [o.fitness]
      ensures generation == o.generation
      ensures Valid() <==> old(Valid())
    {
      AppendInSync(history, fitnessHistory, o);
      history := history + [o];
      fitnessHistory := fitnessHistory + [o.fitness];
      generation := o.generation;
    }

    method SetPaused(p: bool)
      modifies this`paused
      ensures paused == p
    {
      paused := p;
    }

    method SetSpeed(s: real)
      modifies this`speed
      ensures speed == s
    {
      speed := s;
    }

    method SetSelectedFitnessFunction(id: string)
      modifies this`selectedFitnessFunction
      ensures selectedFitnessFunction == id
    {
      selectedFitnessFunction := id;
    }

    method SetMutationConfig(patch: MutationConfigPatch)
      modifies this`mutationConfig
      ensures mutationConfig == MergeMutationConfig(old(mutationConfig), patch)
    {
      mutationConfig := MergeMutationConfig(mutationConfig, patch);
    }

    method UpdateViewConfig(patch: ViewConfigPatch)
      modifies this`viewConfig
      ensures viewConfig == MergeViewConfig(old(viewConfig), patch)
    {
      viewConfig := MergeViewConfig(viewConfig, patch);
    }

    /** Clears the run: no organism, generation 0, empty histories, paused.
      Speed, scorer choice, mutation settings and view settings are kept. */
    method ResetSimulation()
      modifies this`currentOrganism, this`generation, this`history, this`fitnessHistory, this`paused
      ensures Valid()
      ensures currentOrganism == None && generation == 0 && paused
      ensures history == [] && fitnessHistory == []
      ensures Simulation() == InitialSimulationState.(speed := speed,
                selectedFitnessFunction := selectedFitnessFunction, mutationConfig := mutationConfig)
    {
      currentOrganism := None;
      generation := 0;
      history := [];
      fitnessHistory := [];
      paused := true;
    }
  }
}
