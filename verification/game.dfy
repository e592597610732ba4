/** The modular engine (src/game.js): a square board of the four palette
    colours, path validation, loop detection, the clear-and-score rule
    (10 points per cell of a simple path, 20 per cell for a loop, which
    clears every cell of the path's colour), and gravity that reports, per
    column, the colours it drew and how many cells slid down. */
module ModularGame {

  import opened Wrappers
  import opened Seqs
  import opened Board
  import opened Levels

  /** The palette keys, in declaration order. */
  datatype Color = Red | Blue | Green | Yellow

  const ColorKeys: seq<Color> := [Red, Blue, Green, Yellow]

  /** The configuration used when the engine is built without one. */
  const DefaultConfig: LevelConfig := LevelConfig(0, 30, 1000, 4, 6)

  datatype Engine = Engine(
    rows: nat,
    cols: nat,
    grid: Grid<Color>,
    score: int,
    moves: int,
    targetScore: int,
    colorCount: nat,
    level: nat)

  predicate WellFormed(e: Engine)
  {
    IsGrid(e.grid, e.rows, e.cols)
  }

  /** Only the grid, the score and the move count change during a level. */
  predicate SameLevel(e: Engine, e': Engine)
  {
    && e'.rows == e.rows && e'.cols == e.cols
    && e'.targetScore == e.targetScore && e'.colorCount == e.colorCount && e'.level == e.level
  }

  /** A fresh engine for `config`. Every cell is drawn from `supply`, row
      after row; the draws may be any palette key, whatever `colors` says. */
  function NewEngine(config: LevelConfig, supply: seq<Color>): (e: Engine)
    requires |supply| >= config.gridSize * config.gridSize
    ensures WellFormed(e) && Full(e.grid)
    ensures e.rows == config.gridSize && e.cols == config.gridSize
    ensures Flatten(e.grid) == Lift(supply[..config.gridSize * config.gridSize])
    ensures e.score == 0 && e.moves == config.moves && e.targetScore == config.targetScore
    ensures e.colorCount == config.colors
    ensures config.id == 0 ==> e.level == 1
    ensures config.id != 0 ==> e.level == config.id
  {
    var n := config.gridSize;
    Engine(n, n, Fill(n, n, supply), 0, config.moves, config.targetScore, config.colors,
           if config.id == 0 then 1 else config.id)
  }

  /** `new GameEngine()` with no configuration: the constructor's default
      level gives a 6 x 6 board, 30 moves, a target of 1000, four colours,
      and level 1 since the default has no id. */
  function NewDefaultEngine(supply: seq<Color>): (e: Engine)
    requires |supply| >= 36
    ensures WellFormed(e) && Full(e.grid) && e.rows == 6 && e.cols == 6 && e.score == 0
    ensures e.moves == 30 && e.targetScore == 1000 && e.colorCount == 4 && e.level == 1
  {
    NewEngine(DefaultConfig, supply)
  }

  /** Cell lookup that never fails: off-board coordinates read as `None`. */
  function GetDot(e: Engine, r: int, c: int): (dot: Option<Color>)
    requires WellFormed(e)
    ensures !InBounds(Coord(r, c), e.rows, e.cols) ==> dot == None
    ensures InBounds(Coord(r, c), e.rows, e.cols) ==> dot == e.grid[r][c]
  {
    if r < 0 || r >= e.rows || c < 0 || c >= e.cols then None else e.grid[r][c]
  }

  // ------------------------------------------------------------ validation

  /** The validation loop as written: from index 1 on, each cell must be
      adjacent to its predecessor and hold `color`. */
  function StepsFrom(g: Grid<Color>, path: seq<Coord>, i: nat, color: Option<Color>): (ok: bool)
    requires PathOnGrid(g, path) && 1 <= i <= |path|
    ensures ok <==> forall k :: i <= k < |path| ==> IsAdjacent(path[k - 1], path[k]) && At(g, path[k]) == color
    decreases |path| - i
  {
    if i == |path| then true
    else if !IsAdjacent(path[i], path[i - 1]) then false
    else if At(g, path[i]) != color then false
    else StepsFrom(g, path, i + 1, color)
  }

  /** `validatePath`: at least two cells, then the step loop against the
      colour of the first cell. It accepts exactly the valid paths. */
  function ValidatePath(g: Grid<Color>, path: seq<Coord>): (ok: bool)
    requires PathOnGrid(g, path)
    ensures ok <==> ValidPath(g, path)
  {
    |path| >= 2 && StepsFrom(g, path, 1, At(g, path[0]))
  }

  // -------------------------------------------------------- loop detection

  /** The seen-set scan as written: `seen` holds the coordinates before
      index `i`, which so far are all different. */
  function ScanSeen(path: seq<Coord>, i: nat, seen: set<Coord>): (found: bool)
    requires i <= |path| && seen == Elems(path[..i]) && Distinct(path[..i])
    ensures found <==> !Distinct(path)
    decreases |path| - i
  {
    if i == |path| then
      assert path[..i] == path;
      false
    else if path[i] in seen then
      var k :| 0 <= k < i && path[..i][k] == path[i];
      assert path[k] == path[i];
      true
    else
      assert path[..i + 1] == path[..i] + [path[i]];
      DistinctSnoc(path[..i], path[i]);
      ScanSeen(path, i + 1, seen + {path[i]})
  }

  /** `detectLoop`: a path is a loop iff some coordinate occurs at two
      different indices; the geometry of the repeat does not matter. */
  function DetectLoop(path: seq<Coord>): (isLoop: bool)
    ensures isLoop <==> !Distinct(path)
  {
    assert path[..0] == [];
    ScanSeen(path, 0, {})
  }

  // ----------------------------------------------- cells of the loop colour

  /** Row `r` scanned from column `c`: the coordinates holding `color`. */
  function ScanRow(g: Grid<Color>, color: Option<Color>, r: nat, c: nat): (dots: seq<Coord>)
    requires r < |g| && c <= |g[r]|
    ensures Distinct(dots)
    ensures forall p :: p in dots <==> p.r == r && c <= p.c < |g[r]| && g[r][p.c] == color
    decreases |g[r]| - c
  {
    if c == |g[r]| then []
    else
      var rest := ScanRow(g, color, r, c + 1);
      if g[r][c] == color then
        DistinctCons(Coord(r, c), rest);
        [Coord(r, c)] + rest
      else rest
  }

  /** Rows `r` onward scanned in row-major order. */
  function ScanRows(g: Grid<Color>, color: Option<Color>, r: nat): (dots: seq<Coord>)
    requires r <= |g|
    ensures Distinct(dots)
    ensures forall p :: p in dots <==> r <= p.r < |g| && 0 <= p.c < |g[p.r]| && g[p.r][p.c] == color
    decreases |g| - r
  {
    if r == |g| then []
    else
      var here := ScanRow(g, color, r, 0);
      var rest := ScanRows(g, color, r + 1);
      DistinctConcat(here, rest);
      here + rest
  }

  /** The loop branch's double loop over the board: every cell holding
      `color`, each once, so its length is the number of such cells. */
  function CollectColor(g: Grid<Color>, color: Option<Color>): (dots: seq<Coord>)
    ensures Distinct(dots)
    ensures Elems(dots) == CellsOf(g, color)
    ensures |dots| == |CellsOf(g, color)|
  {
    var dots := ScanRows(g, color, 0);
    assert Elems(dots) == CellsOf(g, color);
    DistinctIffCard(dots);
    dots
  }

  // -------------------------------------------------------------- the move

  /** The list of cells the move clears covers the path, has no repeats, and
      so has as many entries as the cells it empties. */
  lemma {:induction false} ClearedCells(g: Grid<Color>, path: seq<Coord>, isLoop: bool, dots: seq<Coord>)
    requires PathOnGrid(g, path) && ValidPath(g, path)
    requires isLoop <==> !Distinct(path)
    requires dots == if isLoop then CollectColor(g, At(g, path[0])) else path
    ensures Elems(dots) == Cleared(g, path)
    ensures |dots| == |Elems(dots)|
    ensures Elems(path) <= Elems(dots)
  {
    DistinctIffCard(path);
    PathWithinColorClass(g, path);
  }

  datatype MoveResult = MoveResult(
    clearedColor: Option<Color>,
    isLoop: bool,
    clearedCount: nat,
    changes: seq<Change<Color>>)

  /** The engine after an attempted move, and the move's report when it was
      accepted (`None` is the source's `null`). */
  datatype Outcome = Outcome(engine: Engine, result: Option<MoveResult>)

  /** `processMove`. A move is refused, with nothing changed, when no moves
      remain or the path is invalid. Otherwise the cleared set is the path
      (a simple path) or every cell of the path's colour (a loop); the score
      rises by 10 or 20 per cleared cell; the cleared cells fall through
      gravity with refill from `supply`; one move is used. */
  function ProcessMove(e: Engine, path: seq<Coord>, supply: seq<Color>): (out: Outcome)
    requires WellFormed(e) && PathInBounds(path, e.rows, e.cols)
    requires |supply| >= e.rows * e.cols
    ensures PathOnGrid(e.grid, path)
    ensures out.result.None? <==> e.moves <= 0 || !ValidPath(e.grid, path)
    ensures out.result.None? ==> out.engine == e
    ensures out.result.Some? ==>
              var m := out.result.value;
              var color := At(e.grid, path[0]);
              var cleared := Cleared(e.grid, path);
              var settled := Gravity(Clear(e.grid, cleared), e.rows, e.cols, TopDown, supply);
              && m.clearedColor == color
              && (m.isLoop <==> !Distinct(path))
              && m.clearedCount == |cleared|
              && (!m.isLoop ==> m.clearedCount == |path|)
              && Elems(path) <= cleared
              && out.engine.score == e.score + (if m.isLoop then 20 else 10) * m.clearedCount
              && out.engine.moves == e.moves - 1
              && out.engine.grid == settled.grid
              && m.changes == settled.changes
              && SameLevel(e, out.engine)
  {
    InBoundsIsOnGrid(e.grid, e.rows, e.cols, path);
    if e.moves <= 0 || !ValidatePath(e.grid, path) then Outcome(e, None)
    else Resolve(e, path, supply)
  }

  /** The accepted branch of `processMove`: clear, score, gravity, one move
      used. */
  function Resolve(e: Engine, path: seq<Coord>, supply: seq<Color>): (out: Outcome)
    requires WellFormed(e) && PathOnGrid(e.grid, path) && ValidPath(e.grid, path)
    requires |supply| >= e.rows * e.cols
    ensures out.result.Some?
    ensures var m := out.result.value;
            var color := At(e.grid, path[0]);
            var cleared := Cleared(e.grid, path);
            var settled := Gravity(Clear(e.grid, cleared), e.rows, e.cols, TopDown, supply);
            && m.clearedColor == color
            && (m.isLoop <==> !Distinct(path))
            && m.clearedCount == |cleared|
            && (!m.isLoop ==> m.clearedCount == |path|)
            && Elems(path) <= cleared
            && out.engine.score == e.score + (if m.isLoop then 20 else 10) * m.clearedCount
            && out.engine.grid == settled.grid
            && m.changes == settled.changes
            && out.engine.moves == e.moves - 1
            && SameLevel(e, out.engine)
  {
    var color := At(e.grid, path[0]);
    var isLoop := DetectLoop(path);
    var dots := if isLoop then CollectColor(e.grid, color) else path;
    var gained := if isLoop then |dots| * 20 else |dots| * 10;
    ClearedCells(e.grid, path, isLoop, dots);
    var settled := Gravity(Clear(e.grid, Elems(dots)), e.rows, e.cols, TopDown, supply);
    Outcome(e.(grid := settled.grid, score := e.score + gained, moves := e.moves - 1),
            Some(MoveResult(color, isLoop, |dots|, settled.changes)))
  }
}
