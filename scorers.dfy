/** The five built-in fitness scorers. Each scorer is a loop over the grid
    (a method) proved equal to a specification function, and the
    specification function carries what the score means. */
module Scorers {
  import opened Types

  function Max(a: int, b: int): int {
    if a >= b then a else b
  }

  function Abs(r: real): real {
    if r < 0.0 then -r else r
  }

  /** Column x of the grid, top to bottom. */
  function Column(g: Grid, x: nat): (c: seq<Cell>)
    requires x < |g[0]|
    ensures |c| == |g|
    ensures forall y :: 0 <= y < |g| ==> c[y] == g[y][x]
  {
    seq(|g|, y requires 0 <= y < |g| => g[y][x])
  }

  /** The grid read column by column. */
  function Transpose(g: Grid): (t: Grid)
    ensures |t| == |g[0]| && |t[0]| == |g|
    ensures forall x :: 0 <= x < |g[0]| ==> t[x] == Column(g, x)
  {
    seq(|g[0]|, x requires 0 <= x < |g[0]| => Column(g, x))
  }

  // ---------------------------------------------------------------------
  // maxHeight

  /** 1 + the highest index below n of a row holding a live cell, or 0. */
  function HighestLiveRow(g: seq<seq<Cell>>, n: nat): (r: nat)
    requires n <= |g|
    ensures r <= n
    ensures r > 0 ==> 1 in g[r - 1]
    ensures forall y :: r <= y < n ==> 1 !in g[y]
    decreases n
  {
    if n == 0 then 0
    else if 1 in g[n - 1] then n
    else HighestLiveRow(g, n - 1)
  }

  /** The maxHeight score: 1 + the last row index that holds a live cell,
      0 for an all-dead grid. */
  function MaxHeight(g: Grid): (r: nat)
    ensures r <= |g|
    ensures r > 0 ==> 1 in g[r - 1]
    ensures forall y :: r <= y < |g| ==> 1 !in g[y]
    ensures r == 0 <==> AllDead(g)
  {
    HighestLiveRow(g, |g|)
  }

  /** The maxHeight loop: scan rows from the last one upwards and stop at the
      first row that has a live cell. */
  method CalculateMaxHeight(grid: Grid) returns (r: nat)
    ensures r == MaxHeight(grid)
  {
    var y := |grid| - 1;
    while y >= 0
      invariant -1 <= y < |grid|
      invariant forall j :: y < j < |grid| ==> 1 !in grid[j]
    {
      if 1 in grid[y] {
        return y + 1;
      }
      y := y - 1;
    }
    return 0;
  }

  /** A grid whose lowest live cell sits in row r scores r + 1. */
  lemma MaxHeightOfLowestLiveRow(g: Grid, r: nat)
    requires r < |g| && 1 in g[r]
    requires forall y :: r < y < |g| ==> 1 !in g[y]
    ensures MaxHeight(g) == r + 1
  {
  }

  // ---------------------------------------------------------------------
  // maxWidth

  /** `row.filter(cell => cell === 1).length`: the live cells of a row. */
  function CountLive(row: seq<Cell>): (r: nat)
    ensures r <= |row|
    ensures r == 0 <==> 1 !in row
    ensures r == |row| <==> 0 !in row
    decreases |row|
  {
    if |row| == 0 then 0
    else
      assert row == row[..|row| - 1] + [row[|row| - 1]];
      CountLive(row[..|row| - 1]) + (if row[|row| - 1] == 1 then 1 else 0)
  }

  /** A grid has at least one cell. */
  lemma CellCountPositive(g: Grid)
    ensures |g| * |g[0]| > 0
  {
    assert |g| * |g[0]| >= |g[0]|;
  }

  /** Extending a row prefix by one cell adds that cell to the count. */
  lemma CountLiveStep(row: seq<Cell>, x: nat)
    requires x < |row|
    ensures CountLive(row[..x + 1]) == CountLive(row[..x]) + (if row[x] == 1 then 1 else 0)
  {
    assert row[..x + 1][..x] == row[..x];
  }

  /** The largest live count among the first n rows (0 when n is 0). */
  function WidestRow(g: seq<seq<Cell>>, n: nat): (r: nat)
    requires n <= |g|
    ensures forall y :: 0 <= y < n ==> CountLive(g[y]) <= r
    ensures n == 0 ==> r == 0
    ensures n > 0 ==> exists y :: 0 <= y < n && CountLive(g[y]) == r
    decreases n
  {
    if n == 0 then 0 else Max(WidestRow(g, n - 1), CountLive(g[n - 1]))
  }

  /** The maxWidth score: the largest number of live cells in any one row. */
  function MaxWidth(g: Grid): (r: nat)
    ensures r <= |g[0]|
    ensures forall y :: 0 <= y < |g| ==> CountLive(g[y]) <= r
    ensures exists y :: 0 <= y < |g| && CountLive(g[y]) == r
    ensures r == 0 <==> AllDead(g)
  {
    WidestRow(g, |g|)
  }

  /** The maxWidth loop: a running maximum over the rows' live counts. */
  method CalculateMaxWidth(grid: Grid) returns (maxWidth: nat)
    ensures maxWidth == MaxWidth(grid)
  {
    maxWidth := 0;
    ghost var widest := 0;
    for y := 0 to |grid|
      invariant forall j :: 0 <= j < y ==> CountLive(grid[j]) <= maxWidth
      invariant y == 0 ==> maxWidth == 0
      invariant y > 0 ==> widest < y && CountLive(grid[widest]) == maxWidth
    {
      var width := CountLive(grid[y]);
      if width >= maxWidth {
        widest := y;
      }
      maxWidth := Max(maxWidth, width);
    }
  }

  // ---------------------------------------------------------------------
  // density

  /** The live cells in the first n rows. */
  function LiveCount(g: seq<seq<Cell>>, n: nat): nat
    requires n <= |g|
    decreases n
  {
    if n == 0 then 0 else LiveCount(g, n - 1) + CountLive(g[n - 1])
  }

  /** The density score: live cells over all cells. It lies in [0, 1]; it
      is 0 exactly for an all-dead grid and 1 exactly for an all-alive grid. */
  function Density(g: Grid): (r: real)
    ensures 0.0 <= r <= 1.0
    ensures r == 0.0 <==> AllDead(g)
    ensures r == 1.0 <==> AllAlive(g)
  {
    LiveCountBounds(g, |g|);
    RatioBounds(LiveCount(g, |g|), |g| * |g[0]|);
    (LiveCount(g, |g|) as real) / ((|g| * |g[0]|) as real)
  }

  /** The density loop: count live cells cell by cell, then divide. */
  method CalculateDensity(grid: Grid) returns (r: real)
    ensures r == Density(grid)
  {
    var liveCells := 0;
    var total := |grid| * |grid[0]|;
    CellCountPositive(grid);
    for y := 0 to |grid|
      invariant liveCells == LiveCount(grid, y)
    {
      for x := 0 to |grid[0]|
        invariant liveCells == LiveCount(grid, y) + CountLive(grid[y][..x])
      {
        CountLiveStep(grid[y], x);
        if grid[y][x] == 1 {
          liveCells := liveCells + 1;
        }
      }
      assert grid[y][..|grid[0]|] == grid[y];
    }
    r := (liveCells as real) / (total as real);
  }

  /** The first n rows hold between 0 and n * width live cells: none exactly
      when they are all dead, n * width exactly when they are all alive. */
  lemma {:induction false} LiveCountBounds(g: Grid, n: nat)
    requires n <= |g|
    ensures LiveCount(g, n) <= n * |g[0]|
    ensures LiveCount(g, n) == 0 <==> forall y :: 0 <= y < n ==> 1 !in g[y]
    ensures LiveCount(g, n) == n * |g[0]| <==> forall y :: 0 <= y < n ==> 0 !in g[y]
    decreases n
  {
    if n > 0 {
      LiveCountBounds(g, n - 1);
      MulStep(n, |g[0]|);
    }
  }

  lemma RatioBounds(a: nat, b: nat)
    requires 0 < b && a <= b
    ensures 0.0 <= (a as real) / (b as real) <= 1.0
    ensures (a as real) / (b as real) == 0.0 <==> a == 0
    ensures (a as real) / (b as real) == 1.0 <==> a == b
  {
    var q := (a as real) / (b as real);
    assert q * (b as real) == a as real;
  }

  // ---------------------------------------------------------------------
  // symmetry

  /** The number of integers x >= 0 with `x < n / 2` under real division. */
  function HalfUp(n: nat): nat {
    (n + 1) / 2
  }

  /** The source's loop guard `x < n / 2` compares against half of n as a
      real number: it admits the middle index when n is odd. */
  lemma BelowHalf(x: nat, n: nat)
    ensures (x as real) < (n as real) / 2.0 <==> x < HalfUp(n)
  {
    assert (x as real) < (n as real) / 2.0 <==> 2 * x < n;
  }

  /** The entry mirroring position i: `s[length - 1 - i]`. */
  function Mirror(s: seq<Cell>, i: nat): Cell
    requires i < |s|
  {
    s[|s| - 1 - i]
  }

  /** Among the first k positions, those equal to their mirror image. */
  function MirrorMatches(s: seq<Cell>, k: nat): (r: nat)
    requires k <= |s|
    ensures r <= k
    decreases k
  {
    if k == 0 then 0
    else MirrorMatches(s, k - 1) + (if s[k - 1] == Mirror(s, k - 1) then 1 else 0)
  }

  /** Among the first k rows, those whose cell in column x equals the cell
      in the mirrored row: `MirrorMatches` of column x, read off the grid. */
  function ColumnMatches(g: Grid, x: nat, k: nat): (r: nat)
    requires x < |g[0]| && k <= |g|
    ensures r <= k
    decreases k
  {
    if k == 0 then 0
    else ColumnMatches(g, x, k - 1) + (if g[k - 1][x] == g[|g| - k][x] then 1 else 0)
  }

  lemma {:induction false} ColumnMatchesMirror(g: Grid, x: nat, k: nat)
    requires x < |g[0]| && k <= |g|
    ensures ColumnMatches(g, x, k) == MirrorMatches(Column(g, x), k)
    decreases k
  {
    if k > 0 {
      ColumnMatchesMirror(g, x, k - 1);
    }
  }

  /** Left-right matches over the first n rows (the horizontal pass). */
  function HorizontalMatches(g: Grid, n: nat): nat
    requires n <= |g|
    decreases n
  {
    if n == 0 then 0 else HorizontalMatches(g, n - 1) + MirrorMatches(g[n - 1], HalfUp(|g[0]|))
  }

  /** Top-bottom matches over the first n columns (the vertical pass). */
  function VerticalMatches(g: Grid, n: nat): nat
    requires n <= |g[0]|
    decreases n
  {
    if n == 0 then 0 else VerticalMatches(g, n - 1) + ColumnMatches(g, n - 1, HalfUp(|g|))
  }

  /** The symmetry loops' `score`: both passes summed. A pass matches at
      most the positions it visits, and a grid symmetric in both axes
      matches at every one of them. */
  function SymmetryCount(g: Grid): (r: nat)
    ensures r <= |g| * HalfUp(|g[0]|) + |g[0]| * HalfUp(|g|)
    ensures MirrorSymmetric(g) ==> r == |g| * HalfUp(|g[0]|) + |g[0]| * HalfUp(|g|)
  {
    HorizontalBound(g, |g|);
    VerticalBound(g, |g[0]|);
    if MirrorSymmetric(g) then
      HorizontalAll(g, |g|);
      VerticalAll(g, |g[0]|);
      HorizontalMatches(g, |g|) + VerticalMatches(g, |g[0]|)
    else
      HorizontalMatches(g, |g|) + VerticalMatches(g, |g[0]|)
  }

  /** The symmetry score: `score / (height * width / 2)`. It is never
      negative, and it is not normalised to [0, 1]: an even-by-even grid
      symmetric in both axes scores exactly 2. */
  function Symmetry(g: Grid): (r: real)
    ensures 0.0 <= r
    ensures MirrorSymmetric(g) && |g| % 2 == 0 && |g[0]| % 2 == 0 ==> r == 2.0
  {
    var cells := |g| * |g[0]|;
    if MirrorSymmetric(g) && |g| % 2 == 0 && |g[0]| % 2 == 0 then
      EvenHalves(|g|, |g[0]|);
      HalfScore(SymmetryCount(g), cells);
      (SymmetryCount(g) as real) / ((cells as real) / 2.0)
    else
      HalfScore(SymmetryCount(g), cells);
      (SymmetryCount(g) as real) / ((cells as real) / 2.0)
  }

  /** The symmetry loops: a horizontal pass over the left half (middle
      column included) of every row, then a vertical pass over the top half
      (middle row included) of every column. */
  method CalculateSymmetry(grid: Grid) returns (r: real)
    ensures r == Symmetry(grid)
  {
    var height := |grid|;
    var width := |grid[0]|;
    var score := HorizontalPass(grid);
    var vertical := VerticalPass(grid);
    score := score + vertical;
    var maxScore := ((height * width) as real) / 2.0;
    r := (score as real) / maxScore;
  }

  /** The horizontal pass: each row against its own mirror image, over the
      columns x with `x < width / 2`. */
  method HorizontalPass(grid: Grid) returns (score: nat)
    ensures score == HorizontalMatches(grid, |grid|)
  {
    score := 0;
    var height := |grid|;
    var width := |grid[0]|;
    var y := 0;
    while y < height
      invariant 0 <= y <= height
      invariant score == HorizontalMatches(grid, y)
    {
      var x := 0;
      while (x as real) < (width as real) / 2.0
        invariant 0 <= x <= HalfUp(width)
        invariant score == HorizontalMatches(grid, y) + MirrorMatches(grid[y], x)
        decreases HalfUp(width) - x
      {
        BelowHalf(x, width);
        if grid[y][x] == grid[y][width - 1 - x] {
          score := score + 1;
        }
        x := x + 1;
      }
      BelowHalf(x, width);
      y := y + 1;
    }
  }

  /** The vertical pass: each column against its own mirror image, over the
      rows y with `y < height / 2`. */
  method VerticalPass(grid: Grid) returns (score: nat)
    ensures score == VerticalMatches(grid, |grid[0]|)
  {
    score := 0;
    var height := |grid|;
    var width := |grid[0]|;
    var x := 0;
    while x < width
      invariant 0 <= x <= width
      invariant score == VerticalMatches(grid, x)
    {
      var y := 0;
      while (y as real) < (height as real) / 2.0
        invariant 0 <= y <= HalfUp(height)
        invariant score == VerticalMatches(grid, x) + ColumnMatches(grid, x, y)
        decreases HalfUp(height) - y
      {
        BelowHalf(y, height);
        if grid[y][x] == grid[height - 1 - y][x] {
          score := score + 1;
        }
        y := y + 1;
      }
      BelowHalf(y, height);
      x := x + 1;
    }
  }

  /** Symmetric about the vertical axis (every row reads the same reversed)
      and about the horizontal axis (every column does). */
  predicate MirrorSymmetric(g: Grid) {
    && (forall y :: 0 <= y < |g| ==> Palindrome(g[y]))
    && (forall x :: 0 <= x < |g[0]| ==> Palindrome(Column(g, x)))
  }

  lemma {:induction false} HorizontalBound(g: Grid, n: nat)
    requires n <= |g|
    ensures HorizontalMatches(g, n) <= n * HalfUp(|g[0]|)
    decreases n
  {
    if n > 0 {
      HorizontalBound(g, n - 1);
      MulStep(n, HalfUp(|g[0]|));
    }
  }

  lemma {:induction false} VerticalBound(g: Grid, n: nat)
    requires n <= |g[0]|
    ensures VerticalMatches(g, n) <= n * HalfUp(|g|)
    decreases n
  {
    if n > 0 {
      VerticalBound(g, n - 1);
      MulStep(n, HalfUp(|g|));
    }
  }

  /** A sequence that reads the same reversed. */
  predicate Palindrome(s: seq<Cell>) {
    forall i {:trigger Mirror(s, i)} :: 0 <= i < |s| ==> s[i] == Mirror(s, i)
  }

  lemma {:induction false} PalindromeMatchesAll(s: seq<Cell>, k: nat)
    requires k <= |s| && Palindrome(s)
    ensures MirrorMatches(s, k) == k
    decreases k
  {
    if k > 0 {
      PalindromeMatchesAll(s, k - 1);
      assert s[k - 1] == Mirror(s, k - 1);
    }
  }

  lemma MulStep(n: nat, k: nat)
    requires n > 0
    ensures n * k == (n - 1) * k + k
  {
  }

  lemma {:induction false} HorizontalAll(g: Grid, n: nat)
    requires n <= |g| && MirrorSymmetric(g)
    ensures HorizontalMatches(g, n) == n * HalfUp(|g[0]|)
    decreases n
  {
    if n > 0 {
      HorizontalAll(g, n - 1);
      PalindromeMatchesAll(g[n - 1], HalfUp(|g[0]|));
      MulStep(n, HalfUp(|g[0]|));
    }
  }

  lemma {:induction false} VerticalAll(g: Grid, n: nat)
    requires n <= |g[0]| && MirrorSymmetric(g)
    ensures VerticalMatches(g, n) == n * HalfUp(|g|)
    decreases n
  {
    if n > 0 {
      VerticalAll(g, n - 1);
      var c := Column(g, n - 1);
      assert Palindrome(c);
      PalindromeMatchesAll(c, HalfUp(|g|));
      ColumnMatchesMirror(g, n - 1, HalfUp(|g|));
      assert VerticalMatches(g, n) == VerticalMatches(g, n - 1) + HalfUp(|g|);
      MulStep(n, HalfUp(|g|));
    }
  }

  lemma EvenHalves(h: nat, w: nat)
    requires h % 2 == 0 && w % 2 == 0
    ensures h * HalfUp(w) + w * HalfUp(h) == h * w
  {
    var a, b := w / 2, h / 2;
    assert HalfUp(w) == a && HalfUp(h) == b;
    assert w == 2 * a && h == 2 * b;
    assert h * a == 2 * (a * b) && w * b == 2 * (a * b);
    assert h * w == 4 * (a * b);
  }

  /** A score over half the cell count is never negative, and is 2 when
      every cell counts. */
  lemma HalfScore(count: nat, cells: nat)
    requires cells > 0
    ensures 0.0 <= (count as real) / ((cells as real) / 2.0)
    ensures count == cells ==> (count as real) / ((cells as real) / 2.0) == 2.0
  {
    var half := (cells as real) / 2.0;
    assert half > 0.0 && 2.0 * half == cells as real;
  }

  // ---------------------------------------------------------------------
  // aspectRatio

  /** A bounding box by its inclusive row and column bounds. */
  datatype Box = Box(minY: int, maxY: int, minX: int, maxX: int)

  /** b is the smallest box holding every live cell: it holds them all and
      each of its four edges touches one. */
  predicate IsTightBox(g: Grid, b: Box) {
    && 0 <= b.minY <= b.maxY < |g| && 0 <= b.minX <= b.maxX < |g[0]|
    && (forall y, x :: 0 <= y < |g| && 0 <= x < |g[0]| && g[y][x] == 1 ==>
          b.minY <= y <= b.maxY && b.minX <= x <= b.maxX)
    && 1 in g[b.minY] && 1 in g[b.maxY]
    && 1 in Column(g, b.minX) && 1 in Column(g, b.maxX)
  }

  /** There is at most one tight box. */
  lemma TightBoxUnique(g: Grid, b1: Box, b2: Box)
    requires IsTightBox(g, b1) && IsTightBox(g, b2)
    ensures b1 == b2
  {
    forall b, c | b in {b1, b2} && c in {b1, b2}
      ensures b.minY <= c.minY && c.maxY <= b.maxY && b.minX <= c.minX && c.maxX <= b.maxX
    {
      var x1 :| 0 <= x1 < |g[0]| && g[c.minY][x1] == 1;
      var x2 :| 0 <= x2 < |g[0]| && g[c.maxY][x2] == 1;
      var y1 :| 0 <= y1 < |g| && Column(g, c.minX)[y1] == 1;
      var y2 :| 0 <= y2 < |g| && Column(g, c.maxX)[y2] == 1;
    }
  }

  /** The first index from y on of a row holding a live cell, |g| if none. */
  function LowestLiveRow(g: seq<seq<Cell>>, y: nat): (r: nat)
    requires y <= |g|
    ensures y <= r <= |g|
    ensures r < |g| ==> 1 in g[r]
    ensures forall j :: y <= j < r ==> 1 !in g[j]
    decreases |g| - y
  {
    if y == |g| then |g|
    else if 1 in g[y] then y
    else LowestLiveRow(g, y + 1)
  }

  lemma LiveCellWitness(g: Grid, y: nat, x: nat)
    requires y < |g| && x < |g[0]| && g[y][x] == 1
    ensures 1 in g[y] && 1 in Column(g, x) && 1 in Transpose(g)[x]
  {
    assert Column(g, x)[y] == 1;
  }

  /** The tight box of the live cells, none for an all-dead grid. */
  function TightBox(g: Grid): (r: Option<Box>)
    ensures r.None? <==> AllDead(g)
    ensures r.Some? ==> IsTightBox(g, r.value)
  {
    if MaxHeight(g) == 0 then None
    else
      var t := Transpose(g);
      var b := Box(LowestLiveRow(g, 0), MaxHeight(g) - 1, LowestLiveRow(t, 0), MaxHeight(t) - 1);
      ScannedBoxIsTight(g, b);
      Some(b)
  }

  /** The first and last live row of the grid and of its transpose bound a
      tight box. */
  lemma ScannedBoxIsTight(g: Grid, b: Box)
    requires MaxHeight(g) > 0
    requires b == Box(LowestLiveRow(g, 0), MaxHeight(g) - 1,
                      LowestLiveRow(Transpose(g), 0), MaxHeight(Transpose(g)) - 1)
    ensures IsTightBox(g, b)
  {
    var t := Transpose(g);
    var y0 := MaxHeight(g) - 1;
    var x0 :| 0 <= x0 < |g[0]| && g[y0][x0] == 1;
    LiveCellWitness(g, y0, x0);
    LiveRowRange(g);
    LiveRowRange(t);
    assert 0 <= b.minY <= b.maxY < |g| && 0 <= b.minX <= b.maxX < |g[0]|;
    assert 1 in g[b.minY] && 1 in g[b.maxY];
    assert t[b.minX] == Column(g, b.minX) && t[b.maxX] == Column(g, b.maxX);
    assert 1 in Column(g, b.minX) && 1 in Column(g, b.maxX);
    forall y, x | 0 <= y < |g| && 0 <= x < |g[0]| && g[y][x] == 1
      ensures b.minY <= y <= b.maxY && b.minX <= x <= b.maxX
    {
      LiveCellWitness(g, y, x);
    }
  }

  /** The rows holding a live cell lie between the first and the last such
      row, and both hold one. */
  lemma LiveRowRange(g: Grid)
    requires MaxHeight(g) > 0
    ensures LowestLiveRow(g, 0) <= MaxHeight(g) - 1
    ensures 1 in g[LowestLiveRow(g, 0)] && 1 in g[MaxHeight(g) - 1]
    ensures forall y :: 0 <= y < |g| && 1 in g[y] ==> LowestLiveRow(g, 0) <= y <= MaxHeight(g) - 1
  {
  }

  /** The aspectRatio scan: one pass over every cell keeping the smallest
      and largest live row and column. */
  method BoundingBox(grid: Grid) returns (box: Option<Box>)
    ensures box.None? <==> AllDead(grid)
    ensures box.Some? ==> IsTightBox(grid, box.value)
    ensures box == TightBox(grid)
  {
    var h, w := |grid|, |grid[0]|;
    var minY, maxY := h, 0;
    var minX, maxX := w, 0;
    var hasLiveCells := false;
    for y := 0 to h
      invariant ScanInvariant(grid, y, 0, hasLiveCells, Box(minY, maxY, minX, maxX))
    {
      for x := 0 to w
        invariant ScanInvariant(grid, y, x, hasLiveCells, Box(minY, maxY, minX, maxX))
      {
        ghost var found, before := hasLiveCells, Box(minY, maxY, minX, maxX);
        if grid[y][x] == 1 {
          hasLiveCells := true;
          minY := if minY <= y then minY else y;
          maxY := if maxY >= y then maxY else y;
          minX := if minX <= x then minX else x;
          maxX := if maxX >= x then maxX else x;
        }
        ScanStep(grid, y, x, found, before, hasLiveCells, Box(minY, maxY, minX, maxX));
      }
      ScanRowEnd(grid, y, hasLiveCells, Box(minY, maxY, minX, maxX));
    }
    ScanDone(grid, hasLiveCells, Box(minY, maxY, minX, maxX));
    if !hasLiveCells {
      box := None;
    } else {
      box := Some(Box(minY, maxY, minX, maxX));
      TightBoxUnique(grid, box.value, TightBox(grid).value);
    }
  }

  /** What the scan knows after visiting every cell before (y, x) in
      row-major order. */
  ghost predicate ScanInvariant(g: Grid, y: int, x: int, found: bool, b: Box) {
    && 0 <= y <= |g| && 0 <= x <= |g[0]| && (y == |g| ==> x == 0)
    && (!found ==>
          b == Box(|g|, 0, |g[0]|, 0) &&
          forall yy, xx :: 0 <= yy < |g| && 0 <= xx < |g[0]| && (yy < y || (yy == y && xx < x)) ==>
            g[yy][xx] != 1)
    && (found ==>
          && 0 <= b.minY <= b.maxY < |g| && 0 <= b.minX <= b.maxX < |g[0]|
          && 1 in g[b.minY] && 1 in g[b.maxY]
          && 1 in Column(g, b.minX) && 1 in Column(g, b.maxX)
          && forall yy, xx :: (0 <= yy < |g| && 0 <= xx < |g[0]| && (yy < y || (yy == y && xx < x)) &&
                               g[yy][xx] == 1) ==> b.minY <= yy <= b.maxY && b.minX <= xx <= b.maxX)
  }

  /** Visiting cell (y, x) keeps the scan invariant: a live cell widens the
      box to include it, a dead one changes nothing. */
  lemma ScanStep(g: Grid, y: nat, x: nat, found: bool, b: Box, found': bool, b': Box)
    requires y < |g| && x < |g[0]| && ScanInvariant(g, y, x, found, b)
    requires g[y][x] != 1 ==> found' == found && b' == b
    requires g[y][x] == 1 ==>
               found' && b' == Box(if b.minY <= y then b.minY else y, if b.maxY >= y then b.maxY else y,
                                   if b.minX <= x then b.minX else x, if b.maxX >= x then b.maxX else x)
    ensures ScanInvariant(g, y, x + 1, found', b')
  {
    if g[y][x] == 1 {
      LiveCellWitness(g, y, x);
    }
  }

  /** Finishing row y is starting row y + 1. */
  lemma ScanRowEnd(g: Grid, y: nat, found: bool, b: Box)
    requires y < |g| && ScanInvariant(g, y, |g[0]|, found, b)
    ensures ScanInvariant(g, y + 1, 0, found, b)
  {
  }

  /** After the last row the scan has found a live cell exactly when there
      is one, and then its box is the tight box. */
  lemma ScanDone(g: Grid, found: bool, b: Box)
    requires ScanInvariant(g, |g|, 0, found, b)
    ensures !found <==> AllDead(g)
    ensures found ==> IsTightBox(g, b)
  {
    if found {
      assert b.minY < |g| && b.minX < |g[0]|;
      var x :| 0 <= x < |g[0]| && g[b.minY][x] == 1;
      assert 1 in g[b.minY];
    } else {
      forall y | 0 <= y < |g|
        ensures 1 !in g[y]
      {
        assert forall x :: 0 <= x < |g[0]| ==> g[y][x] != 1;
      }
    }
  }

  const GoldenRatio: real := 1.618033988749895

  /** The aspectRatio score: 0 without live cells, otherwise the golden-ratio
      score of the tight box's height and width. */
  function AspectRatio(g: Grid): (r: real)
    ensures AllDead(g) ==> r == 0.0
    ensures !AllDead(g) ==> 0.0 < r <= 1.0
  {
    match TightBox(g)
    case None => 0.0
    case Some(b) => GoldenScore(b.maxY - b.minY + 1, b.maxX - b.minX + 1)
  }

  /** `1 / (1 + |height / width - goldenRatio|)`; it lies in (0, 1]. */
  function GoldenScore(height: int, width: int): (r: real)
    requires width > 0
    ensures 0.0 < r <= 1.0
  {
    var d := 1.0 + Abs(height as real / width as real - GoldenRatio);
    ReciprocalBounds(d);
    1.0 / d
  }

  lemma ReciprocalBounds(d: real)
    requires d >= 1.0
    ensures 0.0 < 1.0 / d <= 1.0
  {
    assert (1.0 / d) * d == 1.0;
  }

  /** The aspectRatio scorer: the scan, then the golden-ratio formula. */
  method CalculateAspectRatio(grid: Grid) returns (r: real)
    ensures r == AspectRatio(grid)
  {
    var box := BoundingBox(grid);
    if box.None? {
      return 0.0;
    }
    var b := box.value;
    AspectRatioOfBox(grid, b);
    var height := b.maxY - b.minY + 1;
    var width := b.maxX - b.minX + 1;
    r := GoldenScore(height, width);
  }

  lemma AspectRatioOfBox(g: Grid, b: Box)
    requires TightBox(g) == Some(b)
    ensures b.minX <= b.maxX
    ensures AspectRatio(g) == GoldenScore(b.maxY - b.minY + 1, b.maxX - b.minX + 1)
  {
  }
}
