/** The single-file copy of the engine (app.js). Its board rules are those of
    src/game.js, with three differences: a grid size of 0 falls back to 6,
    fresh colours are drawn among the level's first `colors` palette keys
    rather than among all four, and a move reports no per-column changes.
    Each `Math.random()` value is a caller-supplied draw in [0, 1). */
module AppEngine {

  import opened Wrappers
  import opened Seqs
  import opened Board
  import opened Levels
  import opened ModularGame

  // -------------------------------------------------------- random colours

  /** A value `Math.random()` can return. */
  predicate IsDraw(u: real)
  {
    0.0 <= u < 1.0
  }

  predicate AllDraws(draws: seq<real>)
  {
    forall i :: 0 <= i < |draws| ==> IsDraw(draws[i])
  }

  /** `Math.floor(u * n)` lies in [0, n) for a draw `u` and n > 0. */
  lemma ScaledDrawBounds(u: real, n: nat)
    requires IsDraw(u)
    ensures 0 <= (u * n as real).Floor
    ensures n > 0 ==> (u * n as real).Floor < n
  {
    var x := u * n as real;
    assert 0.0 <= x;
    if n > 0 {
      assert n as real - x == (1.0 - u) * n as real;
      assert x < n as real;
    }
  }

  /** `getRandomColor` as written: the key at index floor(u * colorCount).
      Past the fourth key the lookup yields `undefined`, modelled as None. */
  function RandomColorAsWritten(u: real, colorCount: nat): (key: Option<Color>)
    requires IsDraw(u)
    ensures var k := (u * colorCount as real).Floor;
            && 0 <= k && (colorCount > 0 ==> k < colorCount)
            && (key.Some? <==> k < |ColorKeys|)
            && (key.Some? ==> key.value == ColorKeys[k])
  {
    ScaledDrawBounds(u, colorCount);
    var k := (u * colorCount as real).Floor;
    if k < |ColorKeys| then Some(ColorKeys[k]) else None
  }

  /** A level's draws can come out undefined exactly from level 15 on,
      where the level asks for five or six colours; at level 15 the draw
      0.8 is one such. */
  lemma {:induction false} UndefinedColorIff(i: nat)
    requires 1 <= i <= LevelCount
    ensures (exists u :: IsDraw(u) && RandomColorAsWritten(u, Level(i).colors).None?) <==> i >= 15
  {
    var n := Level(i).colors;
    if i >= 15 {
      assert n >= 5;
      var k := (0.8 * n as real).Floor;
      assert 4.0 <= 0.8 * n as real < 5.0;
      assert k == 4;
      assert RandomColorAsWritten(0.8, n).None?;
    } else {
      forall u | IsDraw(u)
        ensures RandomColorAsWritten(u, n).Some?
      {
        ScaledDrawBounds(u, n);
      }
    }
  }

  /** How many palette keys a level draws from: its `colors`, capped at the
      four keys that exist; a level with no colours still draws the first. */
  function PaletteSize(colorCount: nat): (n: nat)
    ensures 1 <= n <= |ColorKeys|
    ensures 1 <= colorCount <= |ColorKeys| ==> n == colorCount
  {
    if colorCount == 0 then 1 else if colorCount > |ColorKeys| then |ColorKeys| else colorCount
  }

  function AppPalette(colorCount: nat): set<Color>
  {
    Elems(ColorKeys[..PaletteSize(colorCount)])
  }

  /** The evident intent of `getRandomColor`: a key among the first
      `colors` ones, never past the end of the palette. It draws the same
      key as the code as written for levels of at most four colours. */
  function RandomColor(u: real, colorCount: nat): (key: Color)
    requires IsDraw(u)
    ensures key in AppPalette(colorCount)
    ensures colorCount <= |ColorKeys| ==> RandomColorAsWritten(u, colorCount) == Some(key)
  {
    var n := PaletteSize(colorCount);
    ScaledDrawBounds(u, n);
    ScaledDrawBounds(u, colorCount);
    var k := (u * n as real).Floor;
    assert ColorKeys[..n][k] == ColorKeys[k];
    ColorKeys[k]
  }

  /** The keys a sequence of draws picks, in order. */
  function Colors(draws: seq<real>, colorCount: nat): (keys: seq<Color>)
    requires AllDraws(draws)
    ensures |keys| == |draws|
    ensures forall i :: 0 <= i < |keys| ==> keys[i] == RandomColor(draws[i], colorCount)
    ensures forall i :: 0 <= i < |keys| ==> keys[i] in AppPalette(colorCount)
  {
    seq(|draws|, i requires 0 <= i < |draws| => RandomColor(draws[i], colorCount))
  }

  // ------------------------------------------------------------ the engine

  /** `levelConfig.gridSize || 6`. */
  function Side(config: LevelConfig): nat
  {
    if config.gridSize == 0 then 6 else config.gridSize
  }

  /** A fresh engine for `config`, cells drawn row after row. It is the
      modular engine's fresh engine for the same level with the grid size
      fallback applied, and its board only holds the level's palette. */
  function NewEngine(config: LevelConfig, draws: seq<real>): (e: Engine)
    requires AllDraws(draws) && |draws| >= Side(config) * Side(config)
    ensures WellFormed(e) && Full(e.grid) && e.rows == e.cols == Side(config) > 0
    ensures config.gridSize != 0 ==> e.rows == config.gridSize
    ensures ColorsIn(e.grid, AppPalette(config.colors))
    ensures e == ModularGame.NewEngine(config.(gridSize := Side(config)), Colors(draws, config.colors))
  {
    var n := Side(config);
    var keys := Colors(draws, config.colors);
    FillInPalette(n, n, keys, AppPalette(config.colors));
    Engine(n, n, Fill(n, n, keys), 0, config.moves, config.targetScore, config.colors,
           if config.id == 0 then 1 else config.id)
  }

  /** What an accepted move reports in this copy. */
  datatype AppMoveResult = AppMoveResult(clearedColor: Option<Color>, isLoop: bool, clearedCount: nat)

  datatype AppOutcome = AppOutcome(engine: Engine, result: Option<AppMoveResult>)

  /** `processMove`: refused with nothing changed when no moves remain or
      the path is invalid; otherwise the cleared cells fall through gravity,
      refilled with the colours the draws pick for this level. */
  function ProcessMove(e: Engine, path: seq<Coord>, draws: seq<real>): (out: AppOutcome)
    requires WellFormed(e) && PathInBounds(path, e.rows, e.cols)
    requires AllDraws(draws) && |draws| >= e.rows * e.cols
    ensures PathOnGrid(e.grid, path)
    ensures out.result.None? <==> e.moves <= 0 || !ValidPath(e.grid, path)
    ensures out.result.None? ==> out.engine == e
    ensures out.result.Some? ==>
              var m := out.result.value;
              && m.clearedColor == At(e.grid, path[0])
              && (m.isLoop <==> !Distinct(path))
              && m.clearedCount == |Cleared(e.grid, path)|
              && (!m.isLoop ==> m.clearedCount == |path|)
              && out.engine.score == e.score + (if m.isLoop then 20 else 10) * m.clearedCount
              && out.engine.moves == e.moves - 1
              && WellFormed(out.engine) && Full(out.engine.grid)
              && SameLevel(e, out.engine)
  {
    InBoundsIsOnGrid(e.grid, e.rows, e.cols, path);
    if e.moves <= 0 || !ModularGame.ValidatePath(e.grid, path) then AppOutcome(e, None)
    else Resolve(e, path, draws)
  }

  /** The accepted branch of `processMove`. */
  function Resolve(e: Engine, path: seq<Coord>, draws: seq<real>): (out: AppOutcome)
    requires WellFormed(e) && PathOnGrid(e.grid, path) && ValidPath(e.grid, path)
    requires AllDraws(draws) && |draws| >= e.rows * e.cols
    ensures out.result.Some?
    ensures var m := out.result.value;
            && m.clearedColor == At(e.grid, path[0])
            && (m.isLoop <==> !Distinct(path))
            && m.clearedCount == |Cleared(e.grid, path)|
            && (!m.isLoop ==> m.clearedCount == |path|)
            && out.engine.score == e.score + (if m.isLoop then 20 else 10) * m.clearedCount
            && out.engine.moves == e.moves - 1
            && WellFormed(out.engine) && Full(out.engine.grid)
            && SameLevel(e, out.engine)
  {
    var color := At(e.grid, path[0]);
    var isLoop := DetectLoop(path);
    var dots := if isLoop then CollectColor(e.grid, color) else path;
    var gained := if isLoop then |dots| * 20 else |dots| * 10;
    ClearedCells(e.grid, path, isLoop, dots);
    var settled := Gravity(Clear(e.grid, Elems(dots)), e.rows, e.cols, TopDown, Colors(draws, e.colorCount));
    AppOutcome(e.(grid := settled.grid, score := e.score + gained, moves := e.moves - 1),
               Some(AppMoveResult(color, isLoop, |dots|)))
  }

  /** The modular engine's outcome without the per-column report. */
  function Report(out: Outcome): AppOutcome
  {
    match out.result
    case None => AppOutcome(out.engine, None)
    case Some(m) => AppOutcome(out.engine, Some(AppMoveResult(m.clearedColor, m.isLoop, m.clearedCount)))
  }

  /** This copy's move is the modular engine's move with the level's keys as
      the refill colours, less the per-column report: same acceptance, same
      engine afterwards, same cleared colour, loop flag and count. Hence the
      modular engine's scoring and gravity guarantees hold here too. */
  lemma {:induction false} ProcessMoveAgrees(e: Engine, path: seq<Coord>, draws: seq<real>)
    requires WellFormed(e) && PathInBounds(path, e.rows, e.cols)
    requires AllDraws(draws) && |draws| >= e.rows * e.cols
    ensures ProcessMove(e, path, draws) == Report(ModularGame.ProcessMove(e, path, Colors(draws, e.colorCount)))
  {
    InBoundsIsOnGrid(e.grid, e.rows, e.cols, path);
    if e.moves > 0 && ModularGame.ValidatePath(e.grid, path) {
      assert Resolve(e, path, draws) == Report(ModularGame.Resolve(e, path, Colors(draws, e.colorCount)));
    }
  }

  /** A board holding only the level's palette keeps doing so after any
      move, since every refill colour is a key of that palette. */
  lemma {:induction false} ProcessMoveKeepsPalette(e: Engine, path: seq<Coord>, draws: seq<real>)
    requires WellFormed(e) && PathInBounds(path, e.rows, e.cols)
    requires AllDraws(draws) && |draws| >= e.rows * e.cols
    requires ColorsIn(e.grid, AppPalette(e.colorCount))
    ensures ColorsIn(ProcessMove(e, path, draws).engine.grid, AppPalette(e.colorCount))
  {
    InBoundsIsOnGrid(e.grid, e.rows, e.cols, path);
    if e.moves > 0 && ModularGame.ValidatePath(e.grid, path) {
      var color := At(e.grid, path[0]);
      var dots := if DetectLoop(path) then CollectColor(e.grid, color) else path;
      RefillKeepsPalette(e, Elems(dots), draws);
    }
  }

  /** Clearing any cells and refilling with the level's keys keeps the
      board within the level's palette. */
  lemma {:induction false} RefillKeepsPalette(e: Engine, cleared: set<Coord>, draws: seq<real>)
    requires WellFormed(e) && AllDraws(draws) && |draws| >= e.rows * e.cols
    requires ColorsIn(e.grid, AppPalette(e.colorCount))
    ensures ColorsIn(Gravity(Clear(e.grid, cleared), e.rows, e.cols, TopDown, Colors(draws, e.colorCount)).grid, AppPalette(e.colorCount))
  {
    var palette := AppPalette(e.colorCount);
    ClearKeepsPalette(e.grid, cleared, palette);
    GravityKeepsPalette(Clear(e.grid, cleared), e.rows, e.cols, TopDown, Colors(draws, e.colorCount), palette);
  }
}
