/** The fitness registry: a map from identifier to scoring function,
    pre-populated with the five built-in scorers. */
module Fitness {
  import opened Types
  import Scorers

  /** The identifiers of the built-in scorers, in registration order. */
  const BuiltInIds: seq<string> := ["maxHeight", "maxWidth", "aspectRatio", "density", "symmetry"]

  /** The five built-in scorers, each under its own identifier. */
  const MaxHeightScorer := FitnessFunction("maxHeight", "Maximum Height", (g: Grid) => Scorers.MaxHeight(g) as real)
  const MaxWidthScorer := FitnessFunction("maxWidth", "Maximum Width", (g: Grid) => Scorers.MaxWidth(g) as real)
  const AspectRatioScorer := FitnessFunction("aspectRatio", "Golden Ratio", Scorers.AspectRatio)
  const DensityScorer := FitnessFunction("density", "Pattern Density", Scorers.Density)
  const SymmetryScorer := FitnessFunction("symmetry", "Symmetry Score", Scorers.Symmetry)

  /** The entries of a fresh registry. */
  const BuiltInRegistry: map<string, FitnessFunction> := map[
    "maxHeight" := MaxHeightScorer,
    "maxWidth" := MaxWidthScorer,
    "aspectRatio" := AspectRatioScorer,
    "density" := DensityScorer,
    "symmetry" := SymmetryScorer]

  /** The built-in registrations: exactly the five built-in identifiers, each
      entry stored under its own identifier, with its display name and the
      scorer it evaluates. */
  lemma BuiltInRegistrations()
    ensures forall id :: id in BuiltInRegistry <==> id in BuiltInIds
    ensures forall id :: id in BuiltInRegistry ==> BuiltInRegistry[id].id == id
    ensures BuiltInRegistry["maxHeight"].name == "Maximum Height"
    ensures BuiltInRegistry["maxWidth"].name == "Maximum Width"
    ensures BuiltInRegistry["aspectRatio"].name == "Golden Ratio"
    ensures BuiltInRegistry["density"].name == "Pattern Density"
    ensures BuiltInRegistry["symmetry"].name == "Symmetry Score"
    ensures forall g: Grid :: BuiltInRegistry["maxHeight"].calculate(g) == Scorers.MaxHeight(g) as real
    ensures forall g: Grid :: BuiltInRegistry["maxWidth"].calculate(g) == Scorers.MaxWidth(g) as real
    ensures BuiltInRegistry["aspectRatio"].calculate == Scorers.AspectRatio
    ensures BuiltInRegistry["density"].calculate == Scorers.Density
    ensures BuiltInRegistry["symmetry"].calculate == Scorers.Symmetry
  {
  }

  /** `ids` lists the keys `keys` in some order, each exactly once: the last
      identifier is a key, and the rest list the remaining keys. */
  predicate KeyOrder(ids: seq<string>, keys: set<string>)
    decreases |ids|
  {
    if ids == [] then keys == {}
    else ids[|ids| - 1] in keys && KeyOrder(ids[..|ids| - 1], keys - {ids[|ids| - 1]})
  }

  /** What `KeyOrder` means element by element: every listed identifier is a
      key, every key is listed, and no identifier is listed twice. */
  lemma {:induction false} KeyOrderListsKeys(ids: seq<string>, keys: set<string>)
    requires KeyOrder(ids, keys)
    ensures forall i :: 0 <= i < |ids| ==> ids[i] in keys
    ensures forall k :: k in keys ==> k in ids
    ensures forall i, j :: 0 <= i < j < |ids| ==> ids[i] != ids[j]
    decreases |ids|
  {
    if ids != [] {
      var n := |ids| - 1;
      var rest := keys - {ids[n]};
      KeyOrderListsKeys(ids[..n], rest);
      forall k | k in keys
        ensures k in ids
      {
        if k != ids[n] {
          assert k in ids[..n];
        }
      }
      forall i, j | 0 <= i < j < |ids|
        ensures ids[i] != ids[j]
      {
        assert ids[i] in rest;
        if j < n {
          assert ids[j] == ids[..n][j];
        }
      }
    }
  }

  /** Appending a new key keeps the listing. */
  lemma AppendKey(ids: seq<string>, keys: set<string>, id: string)
    requires KeyOrder(ids, keys) && id !in keys
    ensures KeyOrder(ids + [id], keys + {id})
  {
    assert (ids + [id])[..|ids|] == ids;
    assert (keys + {id}) - {id} == keys;
  }

  /** The registry, a JavaScript `Map` from identifier to scoring function:
      `functions` holds the entries and `ids` the keys in insertion order,
      the order in which a `Map` iterates them. */
  class FitnessCalculator {
    var ids: seq<string>
    var functions: map<string, FitnessFunction>

    /** `ids` lists the keys of `functions` once each, and every entry is
        stored under its own identifier. */
    ghost predicate Valid()
      reads this
    {
      && KeyOrder(ids, functions.Keys)
      && (forall id {:trigger functions[id]} :: id in functions ==> functions[id].id == id)
    }

    /** A fresh registry holds exactly the five built-in scorers, in the
        order they are registered. */
    constructor ()
      ensures Valid()
      ensures ids == BuiltInIds
      ensures functions == BuiltInRegistry
    {
      ids := [];
      functions := map[];
      new;
      RegisterFunction(MaxHeightScorer);
      assert ids == ["maxHeight"];
      assert functions == map["maxHeight" := MaxHeightScorer];
      RegisterFunction(MaxWidthScorer);
      assert ids == ["maxHeight", "maxWidth"];
      assert functions == map["maxHeight" := MaxHeightScorer, "maxWidth" := MaxWidthScorer];
      RegisterFunction(AspectRatioScorer);
      assert ids == ["maxHeight", "maxWidth", "aspectRatio"];
      assert functions == map["maxHeight" := MaxHeightScorer, "maxWidth" := MaxWidthScorer,
                              "aspectRatio" := AspectRatioScorer];
      RegisterFunction(DensityScorer);
      assert ids == ["maxHeight", "maxWidth", "aspectRatio", "density"];
      assert functions == map["maxHeight" := MaxHeightScorer, "maxWidth" := MaxWidthScorer,
                              "aspectRatio" := AspectRatioScorer, "density" := DensityScorer];
      RegisterFunction(SymmetryScorer);
    }

    /** Inserts `func` under its identifier, replacing any entry already
        there; every other entry is left as it was. A new identifier goes to
        the end of the iteration order, a replaced one keeps its place. */
    method RegisterFunction(func: FitnessFunction)
      requires Valid()
      modifies this
      ensures Valid()
      ensures functions == old(functions)[func.id := func]
      ensures GetFunction(func.id) == Some(func)
      ensures ids == if func.id in old(functions) then old(ids) else old(ids) + [func.id]
    {
      if func.id !in functions {
        AppendKey(ids, functions.Keys, func.id);
        ids := ids + [func.id];
        functions := functions[func.id := func];
        assert functions.Keys == old(functions).Keys + {func.id};
      } else {
        functions := functions[func.id := func];
        assert functions.Keys == old(functions).Keys;
      }
    }

    /** The entry registered under `id`, if any. */
    function GetFunction(id: string): (r: Option<FitnessFunction>)
      requires Valid()
      reads this
      ensures r.Some? <==> id in functions
      ensures r.Some? ==> r.value == functions[id] && r.value.id == id
    {
      if id in functions then Some(functions[id]) else None
    }

    /** Every registered entry once, in insertion order. */
    function GetAllFunctions(): (all: seq<FitnessFunction>)
      requires Valid()
      reads this
      ensures |all| == |ids|
      ensures forall i :: 0 <= i < |all| ==> ids[i] in functions && all[i] == functions[ids[i]]
      ensures forall i :: 0 <= i < |all| ==> all[i].id == ids[i]
      ensures forall i, j :: 0 <= i < j < |all| ==> all[i].id != all[j].id
      ensures forall id :: id in functions <==> exists i :: 0 <= i < |all| && all[i].id == id
    {
      KeyOrderListsKeys(ids, functions.Keys);
      seq(|ids|, i requires 0 <= i < |ids| && ids[i] in functions reads this => functions[ids[i]])
    }

    /** Scores `grid` with the entry registered under `functionId`; an
        unregistered identifier is an error, never a default score. */
    function CalculateFitness(grid: Grid, functionId: string): (r: Result<real, string>)
      reads this
      ensures r.Failure? <==> functionId !in functions
      ensures r.Failure? ==> r.error == "Fitness function " + functionId + " not found"
      ensures r.Success? ==> r.value == functions[functionId].calculate(grid)
    {
      if functionId !in functions then Failure("Fitness function " + functionId + " not found")
      else Success(functions[functionId].calculate(grid))
    }
  }

  /** On a fresh registry each built-in identifier scores with its scorer
      and an unknown identifier fails. */
  lemma BuiltInScores(registry: FitnessCalculator, grid: Grid)
    requires registry.functions == BuiltInRegistry
    ensures registry.CalculateFitness(grid, "maxHeight") == Success(Scorers.MaxHeight(grid) as real)
    ensures registry.CalculateFitness(grid, "maxWidth") == Success(Scorers.MaxWidth(grid) as real)
    ensures registry.CalculateFitness(grid, "aspectRatio") == Success(Scorers.AspectRatio(grid))
    ensures registry.CalculateFitness(grid, "density") == Success(Scorers.Density(grid))
    ensures registry.CalculateFitness(grid, "symmetry") == Success(Scorers.Symmetry(grid))
    ensures registry.CalculateFitness(grid, "doesNotExist").Failure?
  {
    var m := registry.functions;
    assert m["maxHeight"] == MaxHeightScorer;
    assert m["maxWidth"] == MaxWidthScorer;
    assert m["aspectRatio"] == AspectRatioScorer;
    assert m["density"] == DensityScorer;
    assert m["symmetry"] == SymmetryScorer;
    assert "doesNotExist" !in m;
  }
}
