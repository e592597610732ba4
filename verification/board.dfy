/** The board shared by the three copies of the engine: a rows x cols grid of
    cells, each either a colour or empty, with the operations every copy
    performs on it in the same way (adjacency, the rules a submitted path
    must satisfy, the cells of one colour, clearing, column gravity with
    refill, and the initial row-major fill).

    Randomness is not modelled: every operation that needs fresh colours
    takes a `supply` sequence and consumes it from the front. */
module Board {

  import opened Wrappers
  import opened Seqs

  /** A cell coordinate, row first. Coordinates are integers: adjacency is
      defined for any pair, on the grid or not. */
  datatype Coord = Coord(r: int, c: int)

  /** Row-major grid; `None` is an emptied cell. */
  type Grid<T> = seq<seq<Option<T>>>

  predicate IsGrid<T>(g: Grid<T>, rows: nat, cols: nat)
  {
    |g| == rows && forall r :: 0 <= r < rows ==> |g[r]| == cols
  }

  predicate InBounds(p: Coord, rows: int, cols: int)
  {
    0 <= p.r < rows && 0 <= p.c < cols
  }

  /** Every coordinate of `path` lies on a rows x cols board. */
  predicate PathInBounds(path: seq<Coord>, rows: int, cols: int)
  {
    forall i :: 0 <= i < |path| ==> InBounds(path[i], rows, cols)
  }

  /** `p` addresses a cell of `g`. */
  predicate OnGrid<T>(g: Grid<T>, p: Coord)
  {
    0 <= p.r < |g| && 0 <= p.c < |g[p.r]|
  }

  predicate PathOnGrid<T>(g: Grid<T>, path: seq<Coord>)
  {
    forall i :: 0 <= i < |path| ==> OnGrid(g, path[i])
  }

  lemma {:induction false} InBoundsIsOnGrid<T>(g: Grid<T>, rows: nat, cols: nat, path: seq<Coord>)
    requires IsGrid(g, rows, cols) && PathInBounds(path, rows, cols)
    ensures PathOnGrid(g, path)
  {
  }

  function At<T>(g: Grid<T>, p: Coord): Option<T>
    requires OnGrid(g, p)
  {
    g[p.r][p.c]
  }

  /** No cell is empty. */
  predicate Full<T>(g: Grid<T>)
  {
    forall r, c :: 0 <= r < |g| && 0 <= c < |g[r]| ==> g[r][c].Some?
  }

  /** Every colour on the board belongs to `palette`. */
  predicate ColorsIn<T>(g: Grid<T>, palette: set<T>)
  {
    forall r, c :: 0 <= r < |g| && 0 <= c < |g[r]| && g[r][c].Some? ==> g[r][c].value in palette
  }

  function Abs(x: int): nat
  {
    if x < 0 then -x else x
  }

  /** Four-neighbour adjacency: one step along a row or along a column. The
      contract states it as Manhattan distance one. */
  function IsAdjacent(p1: Coord, p2: Coord): (adj: bool)
    ensures adj <==> Abs(p1.r - p2.r) + Abs(p1.c - p2.c) == 1
    ensures adj ==> p1 != p2
  {
    (Abs(p1.r - p2.r) == 1 && p1.c == p2.c) || (Abs(p1.c - p2.c) == 1 && p1.r == p2.r)
  }

  /** Adjacency is symmetric and irreflexive, and a diagonal step is not adjacent. */
  lemma {:induction false} AdjacencySymmetricIrreflexive(p: Coord, q: Coord)
    ensures IsAdjacent(p, q) == IsAdjacent(q, p)
    ensures !IsAdjacent(p, p)
    ensures !IsAdjacent(p, Coord(p.r + 1, p.c + 1))
  {
  }

  /** The rule every copy enforces on a submitted path, stated over the whole
      path at once: at least two cells, each step to a 4-neighbour, and every
      cell holding what the first cell holds. */
  predicate ValidPath<T(==)>(g: Grid<T>, path: seq<Coord>)
    requires PathOnGrid(g, path)
  {
    && |path| >= 2
    && (forall i :: 0 < i < |path| ==> IsAdjacent(path[i - 1], path[i]))
    && (forall i :: 0 <= i < |path| ==> At(g, path[i]) == At(g, path[0]))
  }

  /** A valid path never touches two different contents. */
  lemma {:induction false} ValidPathIsMonochrome<T>(g: Grid<T>, path: seq<Coord>, i: int, j: int)
    requires PathOnGrid(g, path) && ValidPath(g, path)
    requires 0 <= i < |path| && 0 <= j < |path|
    ensures At(g, path[i]) == At(g, path[j])
  {
  }

  /** All cells of `g` holding `color` (which may be `None`). */
  function CellsOf<T(==)>(g: Grid<T>, color: Option<T>): (cells: set<Coord>)
    ensures forall p :: p in cells <==> OnGrid(g, p) && At(g, p) == color
  {
    set r, c | 0 <= r < |g| && 0 <= c < |g[r]| && g[r][c] == color :: Coord(r, c)
  }

  /** The cells a valid move empties in every copy: the path's cells, or
      for a loop every cell of the path's colour. */
  function Cleared<T(==)>(g: Grid<T>, path: seq<Coord>): set<Coord>
    requires PathOnGrid(g, path) && |path| > 0
  {
    if !Distinct(path) then CellsOf(g, At(g, path[0])) else Elems(path)
  }

  /** All coordinates of a rows x cols board. */
  function Rect(rows: nat, cols: nat): (cells: set<Coord>)
    ensures forall p :: p in cells <==> InBounds(p, rows, cols)
  {
    set r, c | 0 <= r < rows && 0 <= c < cols :: Coord(r, c)
  }

  /** A rows x cols board has rows * cols cells. */
  lemma {:induction false} RectCard(rows: nat, cols: nat)
    ensures |Rect(rows, cols)| == rows * cols
    decreases rows
  {
    if rows == 0 {
      assert Rect(0, cols) == {};
    } else {
      var row := RowCells(rows - 1, cols);
      var above := Rect(rows - 1, cols);
      assert Rect(rows, cols) == above + row;
      assert above * row == {};
      RectCard(rows - 1, cols);
      RowCard(rows - 1, cols);
      assert |Rect(rows, cols)| == |above| + |row|;
      RowsTimesCols(rows, cols);
    }
  }

  lemma RowsTimesCols(rows: nat, cols: nat)
    requires rows > 0
    ensures rows * cols == (rows - 1) * cols + cols
  {
  }

  function RowCells(r: int, n: nat): (cells: set<Coord>)
    ensures forall p :: p in cells <==> p.r == r && 0 <= p.c < n
  {
    set c | 0 <= c < n :: Coord(r, c)
  }

  lemma {:induction false} RowCard(r: int, n: nat)
    ensures |RowCells(r, n)| == n
    decreases n
  {
    if n == 0 {
      assert RowCells(r, 0) == {};
    } else {
      assert RowCells(r, n) == RowCells(r, n - 1) + {Coord(r, n - 1)};
      RowCard(r, n - 1);
    }
  }

  /** Every cell of a valid path has the start colour, so the cells of the
      path are among the cells of that colour. */
  lemma {:induction false} PathWithinColorClass<T>(g: Grid<T>, path: seq<Coord>)
    requires PathOnGrid(g, path) && ValidPath(g, path)
    ensures Elems(path) <= CellsOf(g, At(g, path[0]))
    ensures |Elems(path)| <= |CellsOf(g, At(g, path[0]))|
  {
    forall p | p in Elems(path)
      ensures p in CellsOf(g, At(g, path[0]))
    {
      var i :| 0 <= i < |path| && path[i] == p;
      assert At(g, path[i]) == At(g, path[0]);
    }
    SubsetCard(Elems(path), CellsOf(g, At(g, path[0])));
  }

  lemma {:induction false} SubsetCard<T>(a: set<T>, b: set<T>)
    requires a <= b
    ensures |a| <= |b|
  {
    assert b == a + (b - a);
  }

  /** Empties every cell whose coordinate is in `s`; coordinates off the
      board are ignored. */
  function Clear<T>(g: Grid<T>, s: set<Coord>): (g': Grid<T>)
    ensures |g'| == |g| && forall r :: 0 <= r < |g| ==> |g'[r]| == |g[r]|
    ensures forall p :: OnGrid(g, p) && p in s ==> At(g', p) == None
    ensures forall p :: OnGrid(g, p) && p !in s ==> At(g', p) == At(g, p)
  {
    seq(|g|, r requires 0 <= r < |g| =>
      seq(|g[r]|, c requires 0 <= c < |g[r]| => if Coord(r, c) in s then None else g[r][c]))
  }

  /** Clearing only removes colours, so it keeps the board within a palette. */
  lemma {:induction false} ClearKeepsPalette<T>(g: Grid<T>, s: set<Coord>, palette: set<T>)
    requires ColorsIn(g, palette)
    ensures ColorsIn(Clear(g, s), palette)
  {
    var g': Grid<T> := Clear(g, s);
    forall r, c | 0 <= r < |g'| && 0 <= c < |g'[r]| && g'[r][c].Some?
      ensures g'[r][c].value in palette
    {
      assert At(g', Coord(r, c)) == g'[r][c];
    }
  }

  /** Clearing is idempotent: clearing `a` then `b` is clearing their union,
      whatever the overlap. */
  lemma {:induction false} ClearUnion<T>(g: Grid<T>, a: set<Coord>, b: set<Coord>)
    ensures Clear(Clear(g, a), b) == Clear(g, a + b)
    ensures Clear(Clear(g, a), a) == Clear(g, a)
  {
    var lhs, rhs := Clear(Clear(g, a), b), Clear(g, a + b);
    forall r | 0 <= r < |g|
      ensures lhs[r] == rhs[r]
    {
      forall c | 0 <= c < |g[r]|
        ensures lhs[r][c] == rhs[r][c]
      {
        assert OnGrid(g, Coord(r, c));
      }
    }
    var twice := Clear(Clear(g, a), a);
    forall r | 0 <= r < |g|
      ensures twice[r] == Clear(g, a)[r]
    {
      forall c | 0 <= c < |g[r]|
        ensures twice[r][c] == Clear(g, a)[r][c]
      {
        assert OnGrid(g, Coord(r, c));
      }
    }
  }

  // ---------------------------------------------------------------- gravity

  /** Column `c`, top to bottom. */
  function Column<T>(g: Grid<T>, c: nat): (col: seq<Option<T>>)
    requires forall r :: 0 <= r < |g| ==> c < |g[r]|
    ensures |col| == |g| && forall r :: 0 <= r < |g| ==> col[r] == g[r][c]
  {
    seq(|g|, r requires 0 <= r < |g| => g[r][c])
  }

  /** The colours of a column that survive a clear, top to bottom. */
  function Survivors<T>(col: seq<Option<T>>): (kept: seq<T>)
    ensures |kept| <= |col|
  {
    if col == [] then []
    else if col[0].Some? then [col[0].value] + Survivors(col[1..])
    else Survivors(col[1..])
  }

  /** Number of empty cells of a column. */
  function Holes<T>(col: seq<Option<T>>): nat
  {
    |col| - |Survivors(col)|
  }

  function Shift(idx: seq<nat>): (s: seq<nat>)
    ensures |s| == |idx| && forall k :: 0 <= k < |idx| ==> s[k] == idx[k] + 1
  {
    seq(|idx|, k requires 0 <= k < |idx| => idx[k] + 1)
  }

  /** `idx` maps each of `kept` to the position it came from in `col`: the
      map is strictly increasing and misses no non-empty cell. */
  ghost predicate OrderedOrigin<T>(col: seq<Option<T>>, kept: seq<T>, idx: seq<nat>)
  {
    && |idx| == |kept|
    && (forall k :: 0 <= k < |idx| ==> idx[k] < |col| && col[idx[k]] == Some(kept[k]))
    && (forall k, l :: 0 <= k < l < |idx| ==> idx[k] < idx[l])
    && (forall i :: 0 <= i < |col| && col[i].Some? ==> i in idx)
  }

  /** Where each survivor came from. The survivors are exactly the non-empty
      cells of the column, in their top-to-bottom order. */
  function SurvivorIndices<T>(col: seq<Option<T>>): (idx: seq<nat>)
    ensures OrderedOrigin(col, Survivors(col), idx)
  {
    if col == [] then []
    else
      var inner := SurvivorIndices(col[1..]);
      OriginStep(col, Survivors(col[1..]), inner);
      if col[0].Some? then [0] + Shift(inner) else Shift(inner)
  }

  /** Shifting the index map of `col[1..]` by one maps the same values onto
      their positions in `col`; prepending position 0 adds the head cell. */
  lemma {:induction false} OriginStep<T>(col: seq<Option<T>>, tail: seq<T>, inner: seq<nat>)
    requires col != [] && OrderedOrigin(col[1..], tail, inner)
    ensures col[0].Some? ==> OrderedOrigin(col, [col[0].value] + tail, [0] + Shift(inner))
    ensures col[0].None? ==> OrderedOrigin(col, tail, Shift(inner))
  {
    var rest := Shift(inner);
    forall k | 0 <= k < |inner|
      ensures rest[k] < |col| && col[rest[k]] == Some(tail[k])
    {
      assert col[1..][inner[k]] == col[rest[k]];
    }
    forall i | 1 <= i < |col| && col[i].Some?
      ensures i in rest
    {
      assert col[1..][i - 1] == col[i];
      var k :| 0 <= k < |inner| && inner[k] == i - 1;
      assert rest[k] == i;
    }
    if col[0].Some? {
      SomeHeadOrigin(col, tail, rest);
    } else {
      forall i | 0 <= i < |col| && col[i].Some?
        ensures i in rest
      {
        assert i != 0;
      }
    }
  }

  lemma {:induction false} SomeHeadOrigin<T>(col: seq<Option<T>>, tail: seq<T>, rest: seq<nat>)
    requires col != [] && col[0].Some?
    requires |rest| == |tail|
    requires forall k :: 0 <= k < |rest| ==> 0 < rest[k] < |col| && col[rest[k]] == Some(tail[k])
    requires forall k, l :: 0 <= k < l < |rest| ==> rest[k] < rest[l]
    requires forall i :: 1 <= i < |col| && col[i].Some? ==> i in rest
    ensures OrderedOrigin(col, [col[0].value] + tail, [0] + rest)
  {
    HeadOriginMaps(col, tail, rest);
    HeadOriginIncreases(rest);
    HeadOriginCovers(col, rest);
  }

  lemma {:induction false} HeadOriginMaps<T>(col: seq<Option<T>>, tail: seq<T>, rest: seq<nat>)
    requires col != [] && col[0].Some? && |rest| == |tail|
    requires forall k :: 0 <= k < |rest| ==> 0 < rest[k] < |col| && col[rest[k]] == Some(tail[k])
    ensures forall k :: 0 <= k < |rest| + 1 ==>
              ([0] + rest)[k] < |col| && col[([0] + rest)[k]] == Some(([col[0].value] + tail)[k])
  {
    var idx, kept := [0] + rest, [col[0].value] + tail;
    forall k | 0 <= k < |idx|
      ensures idx[k] < |col| && col[idx[k]] == Some(kept[k])
    {
      if k > 0 {
        assert idx[k] == rest[k - 1] && kept[k] == tail[k - 1];
      }
    }
  }

  lemma {:induction false} HeadOriginIncreases(rest: seq<nat>)
    requires forall k :: 0 <= k < |rest| ==> 0 < rest[k]
    requires forall k, l :: 0 <= k < l < |rest| ==> rest[k] < rest[l]
    ensures forall k, l :: 0 <= k < l < |rest| + 1 ==> ([0] + rest)[k] < ([0] + rest)[l]
  {
    var idx := [0] + rest;
    forall k, l | 0 <= k < l < |idx|
      ensures idx[k] < idx[l]
    {
      assert idx[l] == rest[l - 1];
      if k > 0 {
        assert idx[k] == rest[k - 1];
      }
    }
  }

  lemma {:induction false} HeadOriginCovers<T>(col: seq<Option<T>>, rest: seq<nat>)
    requires forall i :: 1 <= i < |col| && col[i].Some? ==> i in rest
    ensures forall i :: 0 <= i < |col| && col[i].Some? ==> i in [0] + rest
  {
    var idx := [0] + rest;
    forall i | 0 <= i < |col| && col[i].Some?
      ensures i in idx
    {
      if i == 0 {
        assert idx[0] == 0;
      } else {
        var k :| 0 <= k < |rest| && rest[k] == i;
        assert idx[k + 1] == i;
      }
    }
  }

  /** Refill order of the fresh colours: the JavaScript copies put the draws
      on rows 0, 1, ... in draw order; the Python copy fills bottom-up, so its
      first draw lands on the lowest empty row. */
  datatype Refill = TopDown | BottomUp

  /** One column after gravity: fresh colours on top, survivors packed at the
      bottom in their original order. */
  function Settle<T>(col: seq<Option<T>>, draws: seq<T>, order: Refill): (settled: seq<T>)
    requires |draws| == Holes(col)
    ensures |settled| == |col|
    ensures settled[|draws|..] == Survivors(col)
    ensures order == TopDown ==> settled[..|draws|] == draws
    ensures order == BottomUp ==> settled[..|draws|] == Reverse(draws)
  {
    (if order == TopDown then draws else Reverse(draws)) + Survivors(col)
  }

  /** Per-column refill record: which column, the fresh colours drawn for it
      (in draw order) and how many surviving cells it kept. */
  datatype Change<T> = Change(col: nat, newDots: seq<T>, shiftedCount: nat)

  /** All fresh colours drawn, column after column. */
  function Drawn<T>(changes: seq<Change<T>>): seq<T>
  {
    if changes == [] then [] else changes[0].newDots + Drawn(changes[1..])
  }

  /** Refill records for columns `c` .. `cols - 1`, drawing from `supply` in
      column order. */
  function Refills<T>(g: Grid<T>, rows: nat, cols: nat, c: nat, supply: seq<T>): (changes: seq<Change<T>>)
    requires IsGrid(g, rows, cols) && c <= cols
    requires |supply| >= rows * (cols - c)
    ensures |changes| == cols - c
    ensures forall k :: 0 <= k < |changes| ==>
              && changes[k].col == c + k
              && changes[k].shiftedCount == |Survivors(Column(g, c + k))|
              && changes[k].shiftedCount + |changes[k].newDots| == rows
    ensures Drawn(changes) <= supply
    decreases cols - c
  {
    if c == cols then []
    else
      var kept := Survivors(Column(g, c));
      var missing := rows - |kept|;
      MulStep(rows, cols - c);
      var rest := Refills(g, rows, cols, c + 1, supply[missing..]);
      var head := Change(c, supply[..missing], |kept|);
      DrawnCons(head, rest, supply);
      [head] + rest
  }

  lemma {:induction false} MulStep(a: nat, n: nat)
    requires n > 0
    ensures a * n == a + a * (n - 1)
  {
  }

  lemma {:induction false} DrawnCons<T>(head: Change<T>, rest: seq<Change<T>>, supply: seq<T>)
    requires |head.newDots| <= |supply| && head.newDots == supply[..|head.newDots|]
    requires Drawn(rest) <= supply[|head.newDots|..]
    ensures Drawn([head] + rest) <= supply
  {
    assert ([head] + rest)[1..] == rest;
    var n := |head.newDots|;
    assert supply == supply[..n] + supply[n..];
  }

  /** Outcome of gravity: the new grid and the per-column refill records. */
  datatype Settled<T> = Settled(grid: Grid<T>, changes: seq<Change<T>>)

  /** The grid whose column `c` is `columns[c]`. */
  function FromColumns<T>(columns: seq<seq<T>>, rows: nat): (g: Grid<T>)
    requires forall c :: 0 <= c < |columns| ==> |columns[c]| == rows
    ensures IsGrid(g, rows, |columns|) && Full(g)
    ensures forall c :: 0 <= c < |columns| ==> Column(g, c) == Lift(columns[c])
  {
    var g := seq(rows, r requires 0 <= r < rows =>
      seq(|columns|, c requires 0 <= c < |columns| => Some(columns[c][r])));
    assert forall c :: 0 <= c < |columns| ==> Column(g, c) == Lift(columns[c]);
    g
  }

  /** Column gravity with refill over the whole board. Column `c` becomes
      its settled form: its surviving colours packed at the bottom in their
      top-to-bottom order, its vacated top rows filled with the colours drawn
      for it, which are taken from `supply` column after column. The refill
      records say, per column in column order, what was drawn and how many
      cells survived. Afterwards no cell is empty. */
  function Gravity<T>(g: Grid<T>, rows: nat, cols: nat, order: Refill, supply: seq<T>): (out: Settled<T>)
    requires IsGrid(g, rows, cols) && |supply| >= rows * cols
    ensures IsGrid(out.grid, rows, cols) && Full(out.grid)
    ensures |out.changes| == cols
    ensures forall c :: 0 <= c < cols ==>
              && out.changes[c].col == c
              && out.changes[c].shiftedCount == |Survivors(Column(g, c))|
              && out.changes[c].shiftedCount + |out.changes[c].newDots| == rows
    ensures Drawn(out.changes) <= supply
    ensures forall c :: 0 <= c < cols ==>
              Column(out.grid, c) == Lift(Settle(Column(g, c), out.changes[c].newDots, order))
  {
    var changes := Refills(g, rows, cols, 0, supply);
    var columns := SettleAll(g, rows, cols, order, changes);
    Settled(FromColumns(columns, rows), changes)
  }

  /** Every column settled with its own refill record. */
  function SettleAll<T>(g: Grid<T>, rows: nat, cols: nat, order: Refill, changes: seq<Change<T>>): (columns: seq<seq<T>>)
    requires IsGrid(g, rows, cols) && |changes| == cols
    requires forall c :: 0 <= c < cols ==> |changes[c].newDots| + |Survivors(Column(g, c))| == rows
    ensures |columns| == cols
    ensures forall c :: 0 <= c < cols ==>
              |columns[c]| == rows && columns[c] == Settle(Column(g, c), changes[c].newDots, order)
  {
    seq(cols, c requires 0 <= c < cols => Settle(Column(g, c), changes[c].newDots, order))
  }

  /** Gravity keeps the board's colours within a palette when the fresh
      colours come from it. */
  lemma {:induction false} GravityKeepsPalette<T>(g: Grid<T>, rows: nat, cols: nat, order: Refill, supply: seq<T>, palette: set<T>)
    requires IsGrid(g, rows, cols) && |supply| >= rows * cols
    requires ColorsIn(g, palette)
    requires forall i :: 0 <= i < |supply| ==> supply[i] in palette
    ensures ColorsIn(Gravity(g, rows, cols, order, supply).grid, palette)
  {
    var out := Gravity(g, rows, cols, order, supply);
    forall r, c | 0 <= r < rows && 0 <= c < cols
      ensures out.grid[r][c].value in palette
    {
      var col := Column(g, c);
      var draws := out.changes[c].newDots;
      DrawnInSupply(out.changes, supply, c);
      SettleInPalette(col, draws, order, palette);
      var settled := Settle(col, draws, order);
      assert Column(out.grid, c)[r] == out.grid[r][c];
      assert Lift(settled)[r] == Some(settled[r]);
    }
  }

  lemma {:induction false} SettleInPalette<T>(col: seq<Option<T>>, draws: seq<T>, order: Refill, palette: set<T>)
    requires |draws| == Holes(col)
    requires forall i :: 0 <= i < |col| && col[i].Some? ==> col[i].value in palette
    requires forall i :: 0 <= i < |draws| ==> draws[i] in palette
    ensures forall r :: 0 <= r < |col| ==> Settle(col, draws, order)[r] in palette
  {
    var settled := Settle(col, draws, order);
    var idx := SurvivorIndices(col);
    var kept := Survivors(col);
    forall r | 0 <= r < |col|
      ensures settled[r] in palette
    {
      if r < |draws| {
        if order == TopDown {
          assert settled[..|draws|][r] == draws[r];
        } else {
          assert settled[..|draws|][r] == Reverse(draws)[r] == draws[|draws| - 1 - r];
        }
      } else {
        var k := r - |draws|;
        assert settled[r] == settled[|draws|..][k] == kept[k];
        assert col[idx[k]] == Some(kept[k]);
      }
    }
  }

  lemma {:induction false} DrawnInSupply<T>(changes: seq<Change<T>>, supply: seq<T>, c: int)
    requires Drawn(changes) <= supply && 0 <= c < |changes|
    ensures forall i :: 0 <= i < |changes[c].newDots| ==> changes[c].newDots[i] in supply
  {
    if c == 0 {
      assert forall i :: 0 <= i < |changes[0].newDots| ==> changes[0].newDots[i] == supply[i];
    } else {
      assert Drawn(changes) == changes[0].newDots + Drawn(changes[1..]);
      var n := |changes[0].newDots|;
      assert Drawn(changes[1..]) <= supply[n..];
      DrawnInSupply(changes[1..], supply[n..], c - 1);
      assert changes[1..][c - 1] == changes[c];
    }
  }

  // ------------------------------------------------------------ initial fill

  /** Initial board: rows x cols cells filled row by row from `supply`. */
  function Fill<T>(rows: nat, cols: nat, supply: seq<T>): (g: Grid<T>)
    requires |supply| >= rows * cols
    ensures IsGrid(g, rows, cols) && Full(g)
    ensures Flatten(g) == Lift(supply[..rows * cols])
    decreases rows
  {
    if rows == 0 then []
    else
      RowsTimesCols(rows, cols);
      var rest := Fill(rows - 1, cols, supply[cols..]);
      assert Lift(supply[..rows * cols]) == Lift(supply[..cols]) + Lift(supply[cols..][..(rows - 1) * cols]);
      [Lift(supply[..cols])] + rest
  }

  /** A board filled from a supply drawn within a palette stays within it. */
  lemma {:induction false} FillInPalette<T>(rows: nat, cols: nat, supply: seq<T>, palette: set<T>)
    requires |supply| >= rows * cols
    requires forall i :: 0 <= i < |supply| ==> supply[i] in palette
    ensures ColorsIn(Fill(rows, cols, supply), palette)
    decreases rows
  {
    if rows > 0 {
      MulStep(cols, rows);
      FillInPalette(rows - 1, cols, supply[cols..], palette);
      var g: Grid<T> := Fill(rows, cols, supply);
      assert g == [Lift(supply[..cols])] + Fill(rows - 1, cols, supply[cols..]);
      forall r, c | 0 <= r < |g| && 0 <= c < |g[r]| && g[r][c].Some?
        ensures g[r][c].value in palette
      {
        if r == 0 {
          assert g[0][c] == Some(supply[c]);
        } else {
          assert g[r] == Fill(rows - 1, cols, supply[cols..])[r - 1];
        }
      }
    }
  }
}
