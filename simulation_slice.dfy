/** The `simulation` store: the simulation record alone, whose reset returns
    the whole initial state. */
module SimulationSlice {
  import opened Types

  /** The store's state; each reducer is a method that changes only the
      fields its `modifies` clause names. */
  class SimulationStore {
    var currentOrganism: Option<Organism>
    var generation: int
    var history: seq<Organism>
    var fitnessHistory: seq<real>
    var paused: bool
    var speed: real
    var selectedFitnessFunction: string
    var mutationConfig: MutationConfig

    /** The two history lists are in lockstep. */
    ghost predicate Valid()
      reads this
    {
      HistoryInSync(history, fitnessHistory)
    }

    /** The whole state as one record. */
    function State(): SimulationState
      reads this
    {
      SimulationState(currentOrganism, generation, history, fitnessHistory,
                      paused, speed, selectedFitnessFunction, mutationConfig)
    }

    /** The initial state. */
    constructor ()
      ensures Valid()
      ensures State() == InitialSimulationState
    {
      currentOrganism := None;
      generation := 0;
      history := [];
      fitnessHistory := [];
      paused := true;
      speed := 1.0;
      selectedFitnessFunction := "maxHeight";
      mutationConfig := DefaultMutationConfig;
    }

    method SetCurrentOrganism(o: Organism)
      modifies this`currentOrganism
      ensures currentOrganism == Some(o)
    {
      currentOrganism := Some(o);
    }

    /** Appends the organism and its fitness together and moves the generation
      counter to the organism's generation; the histories stay in lockstep
      exactly when they were. */
    method AddToHistory(o: Organism)
      modifies this`history, this`fitnessHistory, this`generation
      ensures history == old(history) + [o]
      ensures fitnessHistory == old(fitnessHistory) + [o.fitness]
      ensures generation == o.generation
      ensures Valid() <==> old(Valid())
    {
      AppendInSync(history, fitnessHistory, o);
      history := history + [o];
      fitnessHistory := fitnessHistory + [o.fitness];
      generation := o.generation;
    }

    method SetPaused(p: bool)
      modifies this`paused
      ensures paused == p
    {
      paused := p;
    }

    method SetSpeed(s: real)
      modifies this`speed
      ensures speed == s
    {
      speed := s;
    }

    method SetSelectedFitnessFunction(id: string)
      modifies this`selectedFitnessFunction
      ensures selectedFitnessFunction == id
    {
      selectedFitnessFunction := id;
    }

    method SetMutationConfig(patch: MutationConfigPatch)
      modifies this`mutationConfig
      ensures mutationConfig == MergeMutationConfig(old(mutationConfig), patch)
    {
      mutationConfig := MergeMutationConfig(mutationConfig, patch);
    }

    /** Replaces the whole state by the initial state, settings included. */
    method ResetSimulation()
      modifies this
      ensures Valid()
      ensures State() == InitialSimulationState
    {
      currentOrganism := None;
      generation := 0;
      history := [];
      fitnessHistory := [];
      paused := true;
      speed := 1.0;
      selectedFitnessFunction := "maxHeight";
      mutationConfig := DefaultMutationConfig;
    }
  }
}
