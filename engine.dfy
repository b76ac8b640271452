/** The evolution engine: toroidal neighbourhoods, first-match rule lookup
    and the construction of the next generation of a grid. */
module Engine {
  import opened Types

  /** `(v + n) % n` for a coordinate moved by one step off a grid of extent n.
      The operand `v + n` is never negative, so the source's truncating `%`
      and Dafny's Euclidean `%` agree here. */
  function Wrap(v: int, n: int): (r: nat)
    requires n > 0 && -1 <= v <= n
    ensures r < n
    ensures r == (if v < 0 then v + n else if v == n then 0 else v)
  {
    (v + n) % n
  }

  /** The 8 Moore offsets (dy, dx) in the order the engine enumerates them:
      dy from -1 to 1 outer, dx from -1 to 1 inner, the centre skipped. */
  const Offsets: seq<(int, int)> :=
    [(-1, -1), (-1, 0), (-1, 1), (0, -1), (0, 1), (1, -1), (1, 0), (1, 1)]

  /** The number of offsets enumerated before (dy, dx). */
  function Slot(dy: int, dx: int): (k: nat)
    requires -1 <= dy <= 1 && -1 <= dx <= 1 && (dy, dx) != (0, 0)
    ensures k < 8 && Offsets[k] == (dy, dx)
  {
    var k := (dy + 1) * 3 + (dx + 1);
    if k > 4 then k - 1 else k
  }

  /** The neighbour of (x, y) at offset number k, read on the torus. */
  function Neighbor(g: Grid, x: nat, y: nat, k: nat): Cell
    requires y < |g| && x < |g[0]| && k < 8
  {
    g[Wrap(y + Offsets[k].0, |g|)][Wrap(x + Offsets[k].1, |g[0]|)]
  }

  /** The Moore neighbourhood of (x, y) in enumeration order. */
  function Neighborhood(g: Grid, x: nat, y: nat): (nb: seq<Cell>)
    requires y < |g| && x < |g[0]|
    ensures |nb| == 8
    ensures forall k :: 0 <= k < 8 ==> nb[k] == Neighbor(g, x, y, k)
  {
    seq(8, k requires 0 <= k < 8 => Neighbor(g, x, y, k))
  }

  /** Collects the 8 neighbours of (x, y) by the two nested offset loops,
      skipping the centre and wrapping both coordinates. */
  method GetNeighborhood(g: Grid, x: nat, y: nat) returns (nb: seq<Cell>)
    requires y < |g| && x < |g[0]|
    ensures nb == Neighborhood(g, x, y)
  {
    var h, w := |g|, |g[0]|;
    ghost var full := Neighborhood(g, x, y);
    nb := [];
    var dy := -1;
    while dy <= 1
      invariant -1 <= dy <= 2
      invariant |nb| == (if dy <= 0 then (dy + 1) * 3 else (dy + 1) * 3 - 1)
      invariant nb == full[..|nb|]
    {
      var dx := -1;
      while dx <= 1
        invariant -1 <= dx <= 2
        invariant |nb| == (if dy < 0 || (dy == 0 && dx <= 0) then (dy + 1) * 3 + (dx + 1)
                           else (dy + 1) * 3 + (dx + 1) - 1)
        invariant nb == full[..|nb|]
      {
        if dx == 0 && dy == 0 {
          dx := dx + 1;
          continue;
        }
        var ny := (y + dy + h) % h;
        var nx := (x + dx + w) % w;
        assert Slot(dy, dx) == |nb|;
        nb := nb + [g[ny][nx]];
        dx := dx + 1;
      }
      dy := dy + 1;
    }
  }

  /** `pattern.every((bit, i) => bit === neighborhood[i])`: every entry of the
      rule's own pattern equals the neighbourhood entry at its index; an index
      past the end of the neighbourhood reads `undefined` and never matches.
      So a pattern matches exactly when it is a prefix of the neighbourhood. */
  predicate Matches(pattern: seq<int>, nb: seq<Cell>)
    ensures Matches(pattern, nb) <==> |pattern| <= |nb| && pattern == nb[..|pattern|]
  {
    |pattern| <= |nb| && forall i :: 0 <= i < |pattern| ==> pattern[i] == nb[i]
  }

  /** The first rule in list order whose pattern matches, or none. */
  function FindMatchingRule(nb: seq<Cell>, rules: seq<Rule>): (r: Option<Rule>)
    ensures r.None? <==>
              forall i {:trigger Matches(rules[i].pattern, nb)} :: 0 <= i < |rules| ==> !Matches(rules[i].pattern, nb)
    ensures r.Some? ==>
              exists i {:trigger rules[i]} :: 0 <= i < |rules| && rules[i] == r.value &&
                Matches(r.value.pattern, nb) &&
                forall j {:trigger Matches(rules[j].pattern, nb)} :: 0 <= j < i ==> !Matches(rules[j].pattern, nb)
  {
    if |rules| == 0 then None
    else if Matches(rules[0].pattern, nb) then Some(rules[0])
    else
      var r := FindMatchingRule(nb, rules[1..]);
      assert forall i :: 1 <= i < |rules| ==> rules[i] == rules[1..][i - 1];
      r
  }

  /** The next state of cell (x, y): the `nextState` of the first matching
      rule, dead when no rule matches, so dead under an empty rule list. */
  function NextCell(g: Grid, rules: seq<Rule>, x: nat, y: nat): (c: Cell)
    requires y < |g| && x < |g[0]|
    ensures rules == [] ==> c == 0
  {
    match FindMatchingRule(Neighborhood(g, x, y), rules)
    case Some(rule) => rule.nextState
    case None => 0
  }

  /** Builds the next generation cell by cell, row by row. */
  method EvolveGrid(grid: Grid, rules: seq<Rule>) returns (next: Grid)
    ensures |next| == |grid| && |next[0]| == |grid[0]|
    ensures forall y, x :: 0 <= y < |grid| && 0 <= x < |grid[0]| ==>
              next[y][x] == NextCell(grid, rules, x, y)
    ensures rules == [] ==> AllDead(next)
  {
    var h, w := |grid|, |grid[0]|;
    var rows: seq<seq<Cell>> := [];
    var y := 0;
    while y < h
      invariant 0 <= y <= h && |rows| == y
      invariant forall i :: 0 <= i < y ==> |rows[i]| == w
      invariant forall i, x {:trigger rows[i][x]} :: 0 <= i < y && 0 <= x < w ==>
                  rows[i][x] == NextCell(grid, rules, x, i)
    {
      var row := new Cell[w](_ => 0);
      var x := 0;
      while x < w
        invariant 0 <= x <= w
        invariant forall j {:trigger row[j]} :: 0 <= j < x ==> row[j] == NextCell(grid, rules, j, y)
      {
        var neighborhood := GetNeighborhood(grid, x, y);
        var matchingRule := FindMatchingRule(neighborhood, rules);
        row[x] := if matchingRule.Some? then matchingRule.value.nextState else 0;
        x := x + 1;
      }
      rows := rows + [row[..]];
      y := y + 1;
    }
    next := rows;
    if rules == [] {
      forall i | 0 <= i < h
        ensures 1 !in next[i]
      {
        assert forall x :: 0 <= x < w ==> next[i][x] == 0;
      }
    }
  }

  /** A pattern of length 8, the length `CreateRandomRules` gives every
      rule, matches exactly the neighbourhood it equals, element for
      element. */
  lemma MatchesIffEqual(pattern: seq<int>, nb: seq<Cell>)
    requires |pattern| == 8 && |nb| == 8
    ensures Matches(pattern, nb) <==> pattern == nb
  {
    if Matches(pattern, nb) {
      assert forall i :: 0 <= i < 8 ==> pattern[i] == nb[i];
    }
  }

  /** A cell is dead unless some rule that matches its neighbourhood makes it
      live; in particular it is dead when no rule matches. */
  lemma NextCellLiveOnlyByRule(g: Grid, rules: seq<Rule>, x: nat, y: nat)
    requires y < |g| && x < |g[0]|
    ensures (forall i :: 0 <= i < |rules| ==> !Matches(rules[i].pattern, Neighborhood(g, x, y))) ==>
              NextCell(g, rules, x, y) == 0
    ensures NextCell(g, rules, x, y) == 1 ==>
              exists i :: 0 <= i < |rules| && rules[i].nextState == 1 &&
                          Matches(rules[i].pattern, Neighborhood(g, x, y))
  {
  }

  /** The rule that decides a cell is the first one in list order whose
      pattern matches its neighbourhood. */
  lemma NextCellIsFirstMatch(g: Grid, rules: seq<Rule>, x: nat, y: nat, i: nat)
    requires y < |g| && x < |g[0]|
    requires i < |rules| && Matches(rules[i].pattern, Neighborhood(g, x, y))
    requires forall j :: 0 <= j < i ==> !Matches(rules[j].pattern, Neighborhood(g, x, y))
    ensures NextCell(g, rules, x, y) == rules[i].nextState
  {
    var nb := Neighborhood(g, x, y);
    var r := FindMatchingRule(nb, rules);
    var k :| 0 <= k < |rules| && rules[k] == r.value && Matches(r.value.pattern, nb) &&
             forall j :: 0 <= j < k ==> !Matches(rules[j].pattern, nb);
  }

  // ---------------------------------------------------------------------
  // Mutation. Every `Math.random()` the source draws and every uuid it mints
  // is an explicit input: a draw is a real in [0, 1).

  predicate IsDraw(u: real) {
    0.0 <= u < 1.0
  }

  /** `Math.floor(u * n)`: a uniform index into n positions. */
  function Scale(u: real, n: int): (k: int)
    requires IsDraw(u) && n >= 1
    ensures 0 <= k < n
  {
    assert u * (n as real) < n as real by {
      assert (1.0 - u) * (n as real) > 0.0;
    }
    (u * n as real).Floor
  }

  /** `Math.floor(u * stepSize) + 1`: how many bit flips a mutating rule gets. */
  function FlipCount(u: real, stepSize: int): (k: int)
    requires IsDraw(u)
    ensures stepSize >= 1 ==> 1 <= k <= stepSize
    ensures stepSize <= 0 ==> k <= 1
  {
    if stepSize >= 1 then Scale(u, stepSize) + 1
    else
      assert u * (stepSize as real) <= 0.0;
      (u * stepSize as real).Floor + 1
  }

  /** The pattern after flipping, in order, the position each draw selects. */
  function ApplyFlips(p: seq<int>, draws: seq<real>): (r: seq<int>)
    requires |draws| == 0 || |p| > 0
    requires forall i :: 0 <= i < |draws| ==> IsDraw(draws[i])
    ensures |r| == |p|
    decreases |draws|
  {
    if |draws| == 0 then p
    else
      var q := ApplyFlips(p, draws[..|draws| - 1]);
      var index := Scale(draws[|draws| - 1], |q|);
      q[index := Flip(q[index])]
  }

  /** The number of positions at which two equally long sequences differ. */
  function DiffCount(a: seq<int>, b: seq<int>): nat
    requires |a| == |b|
    decreases |a|
  {
    if |a| == 0 then 0
    else DiffCount(a[..|a| - 1], b[..|b| - 1]) + (if a[|a| - 1] == b[|b| - 1] then 0 else 1)
  }

  lemma {:induction false} DiffCountSelf(a: seq<int>)
    ensures DiffCount(a, a) == 0
    decreases |a|
  {
    if |a| > 0 {
      DiffCountSelf(a[..|a| - 1]);
    }
  }

  /** Overwriting one position changes the difference count by at most one. */
  lemma {:induction false} DiffCountUpdate(a: seq<int>, b: seq<int>, i: nat, v: int)
    requires |a| == |b| && i < |a|
    ensures DiffCount(a[i := v], b) <= DiffCount(a, b) + 1
    decreases |a|
  {
    var n := |a|;
    if i < n - 1 {
      assert a[i := v][..n - 1] == a[..n - 1][i := v];
      DiffCountUpdate(a[..n - 1], b[..n - 1], i, v);
    } else {
      assert a[i := v][..n - 1] == a[..n - 1];
    }
  }

  /** k flips change at most k positions of a pattern. */
  lemma {:induction false} FlipsDifferInAtMost(p: seq<int>, draws: seq<real>)
    requires |draws| == 0 || |p| > 0
    requires forall i :: 0 <= i < |draws| ==> IsDraw(draws[i])
    ensures DiffCount(ApplyFlips(p, draws), p) <= |draws|
    decreases |draws|
  {
    if |draws| == 0 {
      DiffCountSelf(p);
    } else {
      var q := ApplyFlips(p, draws[..|draws| - 1]);
      FlipsDifferInAtMost(p, draws[..|draws| - 1]);
      var index := Scale(draws[|draws| - 1], |q|);
      DiffCountUpdate(q, p, index, Flip(q[index]));
    }
  }

  /** The draws one rule consumes, in the source's order: the rate draw, the
      flip-count draw, one position draw per flip, the uuid of the mutated
      rule, and the draw that decides whether `nextState` is flipped. */
  datatype MutationDraws = MutationDraws(
    rateDraw: real,
    stepDraw: real,
    positionDraws: seq<real>,
    freshId: string,
    nextStateDraw: real)

  /** The position draws a mutating rule uses: one per flip, none when
      multi-point flips are off. */
  function FlipDraws(config: MutationConfig, d: MutationDraws): seq<real>
    requires IsDraw(d.stepDraw)
    requires config.allowMultiPoint ==> |d.positionDraws| >= FlipCount(d.stepDraw, config.stepSize)
  {
    var count := FlipCount(d.stepDraw, config.stepSize);
    if config.allowMultiPoint && count > 0 then d.positionDraws[..count] else []
  }

  /** The draws are in [0, 1) and there are enough of them; a rule that may be
      flipped has a non-empty pattern. */
  predicate WellDrawn(rule: Rule, config: MutationConfig, d: MutationDraws) {
    && IsDraw(d.rateDraw) && IsDraw(d.stepDraw) && IsDraw(d.nextStateDraw)
    && (forall i :: 0 <= i < |d.positionDraws| ==> IsDraw(d.positionDraws[i]))
    && (config.allowMultiPoint ==>
          |rule.pattern| > 0 && |d.positionDraws| >= FlipCount(d.stepDraw, config.stepSize))
  }

  /** What the per-rule mutation callback returns for the given draws: the
      rule itself, or a rule under the fresh id; either way the pattern keeps
      its length and `nextState` is kept or complemented. */
  function Mutated(rule: Rule, config: MutationConfig, d: MutationDraws): (r: Rule)
    requires WellDrawn(rule, config, d)
    ensures r == rule || r.id == d.freshId
    ensures |r.pattern| == |rule.pattern|
    ensures r.nextState == rule.nextState || r.nextState == Flip(rule.nextState)
  {
    if d.rateDraw > config.rate then rule
    else
      Rule(d.freshId,
           ApplyFlips(rule.pattern, FlipDraws(config, d)),
           if d.nextStateDraw < 0.1 then Flip(rule.nextState) else rule.nextState)
  }

  /** The per-rule callback: copy the pattern, flip it in place in a loop,
      mint a fresh id and maybe flip `nextState`. */
  method MutateRule(rule: Rule, config: MutationConfig, d: MutationDraws) returns (r: Rule)
    requires WellDrawn(rule, config, d)
    ensures r == Mutated(rule, config, d)
  {
    if d.rateDraw > config.rate {
      return rule;
    }
    var newPattern := new int[|rule.pattern|](k requires 0 <= k < |rule.pattern| => rule.pattern[k]);
    var mutations := FlipCount(d.stepDraw, config.stepSize);
    ghost var flips := FlipDraws(config, d);
    var i := 0;
    while i < mutations && config.allowMultiPoint
      invariant 0 <= i && (i == 0 || i <= |flips|)
      invariant config.allowMultiPoint && i > 0 ==> flips[..i] == d.positionDraws[..i]
      invariant newPattern[..] == ApplyFlips(rule.pattern, flips[..i])
    {
      assert flips[..i + 1][..i] == flips[..i];
      var index := Scale(d.positionDraws[i], newPattern.Length);
      newPattern[index] := Flip(newPattern[index]);
      i := i + 1;
    }
    assert flips[..i] == flips;
    r := Rule(d.freshId, newPattern[..],
              if d.nextStateDraw < 0.1 then Flip(rule.nextState) else rule.nextState);
  }

  /** `rules.map(...)`: each rule mutated independently with its own draws. */
  method MutateRules(rules: seq<Rule>, config: MutationConfig, draws: seq<MutationDraws>)
    returns (mutated: seq<Rule>)
    requires |draws| == |rules|
    requires forall i :: 0 <= i < |rules| ==> WellDrawn(rules[i], config, draws[i])
    ensures |mutated| == |rules|
    ensures forall i :: 0 <= i < |rules| ==> mutated[i] == Mutated(rules[i], config, draws[i])
  {
    mutated := [];
    for i := 0 to |rules|
      invariant |mutated| == i
      invariant forall j :: 0 <= j < i ==> mutated[j] == Mutated(rules[j], config, draws[j])
    {
      var r := MutateRule(rules[i], config, draws[i]);
      mutated := mutated + [r];
    }
  }

  /** A rule that passes the rate gate comes back as it was, id included. */
  lemma SkippedRuleUnchanged(rule: Rule, config: MutationConfig, d: MutationDraws)
    requires WellDrawn(rule, config, d) && d.rateDraw > config.rate
    ensures Mutated(rule, config, d) == rule
  {
  }

  /** A rule selected for mutation gets the fresh id, keeps its pattern
      length, gets between 1 and stepSize flips that change at most that many
      positions (none when multi-point flips are off), and its `nextState`
      is either kept or complemented. */
  lemma MutatedRuleShape(rule: Rule, config: MutationConfig, d: MutationDraws)
    requires WellDrawn(rule, config, d) && d.rateDraw <= config.rate
    ensures Mutated(rule, config, d).id == d.freshId
    ensures |Mutated(rule, config, d).pattern| == |rule.pattern|
    ensures !config.allowMultiPoint ==> Mutated(rule, config, d).pattern == rule.pattern
    ensures config.allowMultiPoint && config.stepSize >= 1 ==>
              1 <= FlipCount(d.stepDraw, config.stepSize) <= config.stepSize &&
              DiffCount(Mutated(rule, config, d).pattern, rule.pattern) <= FlipCount(d.stepDraw, config.stepSize)
    ensures Mutated(rule, config, d).nextState == rule.nextState ||
            Mutated(rule, config, d).nextState == 1 - rule.nextState
  {
    var flips := FlipDraws(config, d);
    FlipsDifferInAtMost(rule.pattern, flips);
  }

  /** At rate 1 or above every rule is mutated, since a draw is below 1. */
  lemma FullRateAlwaysMutates(rule: Rule, config: MutationConfig, d: MutationDraws)
    requires WellDrawn(rule, config, d) && config.rate >= 1.0
    ensures Mutated(rule, config, d).id == d.freshId
  {
  }

  /** At rate 0 a rule is kept whenever its draw is positive; a draw of
      exactly 0 does not exceed the rate, so that rule is still mutated. */
  lemma ZeroRateKeepsRulesUnlessDrawIsZero(rule: Rule, config: MutationConfig, d: MutationDraws)
    requires WellDrawn(rule, config, d) && config.rate == 0.0
    ensures d.rateDraw > 0.0 ==> Mutated(rule, config, d) == rule
    ensures d.rateDraw == 0.0 ==> Mutated(rule, config, d).id == d.freshId
  {
  }

  // ---------------------------------------------------------------------
  // Constructors.

  /** `Math.random() > 0.8 ? 1 : 0` for every cell: alive exactly where the
      cell's draw exceeds 0.8. */
  function CreateInitialGrid(width: nat, height: nat, draws: seq<seq<real>>): (g: Grid)
    requires width >= 1 && height >= 1
    requires |draws| == height && forall y :: 0 <= y < height ==> |draws[y]| == width
    ensures |g| == height && |g[0]| == width
    ensures forall y, x :: 0 <= y < height && 0 <= x < width ==> (g[y][x] == 1 <==> draws[y][x] > 0.8)
  {
    seq(height, y requires 0 <= y < height =>
      seq(width, x requires 0 <= x < width => if draws[y][x] > 0.8 then 1 else 0))
  }

  /** The draws one random rule consumes: its uuid, 8 pattern draws and the
      `nextState` draw. */
  datatype RuleDraws = RuleDraws(freshId: string, patternDraws: seq<real>, nextStateDraw: real)

  /** `count` rules, each with an 8-entry 0/1 pattern and a 0/1 next state
      (1 exactly where the draw exceeds 0.5) and the id supplied for it. */
  function CreateRandomRules(count: nat, draws: seq<RuleDraws>): (rules: seq<Rule>)
    requires |draws| == count
    requires forall i :: 0 <= i < count ==> |draws[i].patternDraws| == 8
    ensures |rules| == count
    ensures forall i :: 0 <= i < count ==>
              rules[i].id == draws[i].freshId && |rules[i].pattern| == 8 &&
              (rules[i].nextState == 1 <==> draws[i].nextStateDraw > 0.5)
    ensures forall i, k :: 0 <= i < count && 0 <= k < 8 ==>
              0 <= rules[i].pattern[k] <= 1 &&
              (rules[i].pattern[k] == 1 <==> draws[i].patternDraws[k] > 0.5)
  {
    seq(count, i requires 0 <= i < count =>
      Rule(draws[i].freshId,
           seq(8, k requires 0 <= k < 8 => if draws[i].patternDraws[k] > 0.5 then 1 else 0),
           if draws[i].nextStateDraw > 0.5 then 1 else 0))
  }

  /** Distinct ids supplied give rules with distinct ids. */
  lemma RandomRulesHaveDistinctIds(count: nat, draws: seq<RuleDraws>)
    requires |draws| == count
    requires forall i :: 0 <= i < count ==> |draws[i].patternDraws| == 8
    requires forall i, j :: 0 <= i < j < count ==> draws[i].freshId != draws[j].freshId
    ensures forall i, j :: 0 <= i < j < count ==>
              CreateRandomRules(count, draws)[i].id != CreateRandomRules(count, draws)[j].id
  {
  }

  /** An organism built from a grid and a rule set, with generation and
      fitness defaulting to 0 and no parent. */
  function CreateOrganism(grid: Grid, rules: seq<Rule>, freshId: string,
                          generation: int := 0, fitness: real := 0.0): (o: Organism)
    ensures o.id == freshId && o.grid == grid && o.rules == rules
    ensures o.generation == generation && o.fitness == fitness && o.parent == None
  {
    Organism(freshId, grid, rules, generation, fitness, None)
  }

  lemma CreateOrganismDefaults(grid: Grid, rules: seq<Rule>, freshId: string)
    ensures CreateOrganism(grid, rules, freshId).generation == 0
    ensures CreateOrganism(grid, rules, freshId).fitness == 0.0
    ensures CreateOrganism(grid, rules, freshId).parent.None?
  {
  }
}
