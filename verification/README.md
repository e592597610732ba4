# Connect-the-dots puzzle engine in Dafny

This project models the puzzle engine of a colour-matching "connect the
dots" game. The player draws a path through orthogonally adjacent dots of a
single colour. A valid path is cleared and scored. A path that visits some
dot twice is a loop, and a loop clears every dot of its colour. The cleared
cells are refilled by column gravity: in each column the surviving dots
slide to the bottom in their original order and fresh colours fill the
top. Each accepted move uses one move of a budget.

The engine exists in three copies, and the model follows each one:

- `ModularGame` (game.dfy) models `GameEngine` in src/game.js. It scores 10
  points per cleared cell, 20 for a loop, and reports one refill record per
  column (`changes`).
- `AppEngine` (app.dfy) models `GameEngine` in app.js. It draws fresh
  colours by the level's colour count rather than from the whole palette,
  and reports no refill records.
- `DotGame` (dot_engine.dfy) models `DotGame` in dot_engine.py. It works
  over any colour type, scores 1 point per cleared cell (2 for a loop),
  clears the path set united with the colour class, and refills a column
  from the bottom up.

Shared concepts live in `Board` (board.dfy). These are the grid of
`Option` cells (`None` is the source's `null`/`None`), coordinates, 4-way
adjacency, the reference definition of a valid path, colour classes,
clearing, and column gravity with either refill order. `Levels`
(levels.dfy) models the 50-level table of src/levels.js, which app.js
repeats in its lines 1–14. `Copies` (copies.dfy) relates the JavaScript
and Python engines. `Seqs` and `Wrappers` hold sequence helpers and
`Option`.

Randomness enters as an explicit supply. Every random colour the source
draws (`Math.random()`, `random.choice`) is taken, in order, from a
caller-supplied sequence:

- colours for src/game.js and dot_engine.py;
- raw draws in [0, 1) for app.js, whose key choice is part of the model.

Initial fills take the supply row by row. Gravity takes it column by
column, one draw per vacated cell.

Six loops of the source are modelled twice: once "as written" (`StepsFrom`,
`ScanSeen`, `ScanRows`, `PairsFrom`, `FillColumn`, `GenerateLevels`) and
once as a reference predicate or function (`ValidPath`, `Distinct`,
`CellsOf`, `Settle`, `Level`). The contracts prove each pair equal. The
other loops (the initial fill, clearing, and the column loop of gravity)
are modelled directly by `Fill`, `Clear` and `Gravity`, whose contracts
state what the loops compute.

The model follows the code in places where the game's intended design
reads otherwise:

- No copy rejects a move because the level's target score has been reached.
  Only an exhausted move budget or an invalid path refuses a move.
  Deciding that a level is won is left to the caller.
- src/game.js draws fresh colours from all four palette keys, whatever the
  level's colour count. app.js draws by the colour count, and that is the
  subject of the finding below.
- Path validation indexes the grid directly rather than through `getDot`.
  Off-board path coordinates are therefore a precondition rather than a
  failed check.
- A loop whose colour class is larger than the path clears the whole class.
  In the Python copy the clear set is written as the path set united with
  the colour class, which `DotGame.LoopClearIsColorClass` shows is the same.

## Model

| member | source | states |
|---|---|---|
| Board.IsAdjacent | src/game.js:43-46 | two points are adjacent exactly when they differ by 1 in one coordinate and agree in the other; adjacent points are distinct |
| Board.AdjacencySymmetricIrreflexive | src/game.js:43-46 | adjacency is symmetric, no point is adjacent to itself, and a diagonal step is not adjacent |
| Board.ValidPathIsMonochrome | src/game.js:48-60 | any two cells of a valid path hold the same content |
| Board.CellsOf | src/game.js:84-90 | the colour class contains exactly the on-board cells holding that colour |
| Board.RectCard | dot_engine.py:63-66 | the rows x cols board has exactly rows * cols cells |
| Board.PathWithinColorClass | src/game.js:82-95 | every cell of a valid path lies in the colour class of its first cell, so a loop clears at least as many cells as the path visits |
| Board.Clear | src/game.js:97-100 | cleared cells become empty, every other cell keeps its content, and the dimensions do not change |
| Board.ClearUnion | dot_engine.py:71-73 | clearing a set twice is clearing it once, and clearing two sets in turn is clearing their union |
| Board.ClearKeepsPalette | src/game.js:97-100 | clearing never introduces a colour outside the palette |
| Board.SurvivorIndices | src/game.js:117-122 | the surviving colours of a column are exactly its non-empty cells, taken top to bottom: a strictly increasing map into the column misses no non-empty cell |
| Board.Refills | src/game.js:116-139 | one record per column in column order; each records its column, the number of survivors, and as many fresh colours as there are holes; the fresh colours are drawn consecutively from the supply |
| Board.Gravity | src/game.js:113-143 | after gravity no cell is empty and the dimensions are unchanged; there is one refill record per column in column order with `shiftedCount + newDots.length == rows`; each column is its survivors in order at the bottom under its fresh colours, top-down (JavaScript) or reversed (Python); all fresh colours come from the supply in order |
| Board.GravityKeepsPalette | src/game.js:124-133 | if the board and the supply use only palette colours, so does the board after gravity |
| Board.Fill | src/game.js:23-32 | the initial board has `rows` rows of `cols` cells, none empty, and read row by row it is the first rows * cols colours of the supply |
| Board.FillInPalette | dot_engine.py:8 | a board filled from palette colours holds only palette colours |
| Seqs.DistinctIffCard | dot_engine.py:41-45 | a sequence has at most as many distinct elements as entries, and has no repeat exactly when the two counts agree |
| Levels.Level | src/levels.js:4-16 | level i has id i; moves are 35 - i up to level 20 and 15 after that, never below 15; the target score is 500 + 200 i; there are 3 colours below level 5, at most 4 below level 15, and 6 from level 30; the grid is 6 wide below level 20 and 7 otherwise |
| Levels.GenerateLevels | src/levels.js:1-16 | the generator loop produces exactly 50 levels, the k-th being level k + 1 of the table |
| Levels.LevelsMonotone | src/levels.js:5-14 | later levels never have more moves or fewer colours or a smaller grid, and the target rises by exactly 200 per level |
| ModularGame.NewEngine | src/game.js:11-32 | a new engine has a gridSize x gridSize full board read row by row from the supply, score 0, the level's moves, target and colour count, and level `id`, or 1 when the id is missing |
| ModularGame.NewDefaultEngine | src/game.js:10-19 | an engine built without a configuration has a full 6 x 6 board, score 0, 30 moves, a target of 1000, four colours, and level 1 |
| ModularGame.GetDot | src/game.js:38-41 | an off-board coordinate reads as empty and an on-board one reads the cell; it never fails |
| ModularGame.StepsFrom | src/game.js:52-58 | the loop as written succeeds exactly when every later step is adjacent to its predecessor and holds the start colour |
| ModularGame.ValidatePath | src/game.js:48-60 | accepts exactly the valid paths: at least two cells, each step adjacent, every cell the colour of the first |
| ModularGame.ScanSeen | src/game.js:65-71 | the seen-set scan reports a repeat exactly when the path has one |
| ModularGame.DetectLoop | src/game.js:62-72 | a path is a loop exactly when some coordinate occurs at two different indices |
| ModularGame.ScanRows | src/game.js:84-90 | the row-major scan from a given row lists each cell of the colour in those rows once |
| ModularGame.CollectColor | src/game.js:84-90 | the loop's scan lists each cell of the colour exactly once, so its length is the size of the colour class |
| ModularGame.ClearedCells | src/game.js:82-95 | the list of cells to clear covers the path, has no repeats, and its cells are the colour class for a loop and the path otherwise |
| ModularGame.ProcessMove | src/game.js:74-111 | refused (`null`, engine unchanged) exactly when no moves remain or the path is invalid; otherwise it reports the start colour, whether the path is a loop (a repeated coordinate) and the number of cleared cells; the count is the size of the colour class for a loop and the path length otherwise; the score rises by 20 or 10 per cleared cell; the board becomes gravity over the cleared board with exactly those refill records; moves drop by 1 and nothing else about the level changes |
| ModularGame.Resolve | src/game.js:78-110 | an accepted move clears, scores, settles and uses a move exactly as described for the move as a whole |
| DotGame.NewGame | dot_engine.py:4-10 | a new game has a rows x cols full board read row by row from the supply, holds only the given colours, has score 0 and 30 moves |
| DotGame.PairsFrom | dot_engine.py:32-37 | the pair loop as written succeeds exactly when every later step is adjacent to its predecessor and holds the start colour |
| DotGame.ValidatePath | dot_engine.py:26-39 | false below two cells; otherwise true exactly for the valid paths |
| DotGame.DetectLoop | dot_engine.py:41-45 | `len(path) != len(set(path))` holds exactly when some coordinate repeats |
| DotGame.ClearSet | dot_engine.py:57-66 | the clear set always contains the path's cells |
| DotGame.LoopClearIsColorClass | dot_engine.py:58-66 | for a valid loop the path's cells united with the colour class are just the colour class |
| DotGame.ClearSetIsReference | dot_engine.py:57-69 | the clear set of a valid path is the colour class for a loop and the path's cells otherwise, and then it has one cell per path entry |
| DotGame.ProcessMove | dot_engine.py:47-77 | refused (False, game unchanged) exactly when no moves remain or the path is invalid; otherwise the score rises by twice the colour class size for a loop and by the path length otherwise; the cleared board is refilled bottom-up from the supply, no cell stays empty, and one move is used |
| DotGame.Resolve | dot_engine.py:57-77 | an accepted move clears, scores, settles and uses a move exactly as described for the move as a whole |
| DotGame.ProcessMoveKeepsColors | dot_engine.py:71-90 | a board holding only the game's colours keeps doing so after any move, since every refill is a `random.choice` among those colours |
| DotGame.FillColumn | dot_engine.py:79-90 | the bottom-up pop loop draws exactly one fresh colour per hole and leaves the survivors in order at the bottom under the fresh colours in reverse draw order |
| DotGame.UniformPathValid | dot_engine.py:26-39 | on a one-colour board every chain of adjacent cells is a valid path |
| DotGame.UniformAfterGravity | dot_engine.py:71-90 | clearing any cells of a one-colour board and refilling with that colour gives the one-colour board back |
| DotGame.UniformBoardMove | dot_engine.py:47-77 | on a one-colour board every adjacent chain is accepted; a simple chain scores its length, a loop scores twice the board size, and the board stays one colour |
| DotGame.SingleColourStart | dot_engine.py:4-10 | a game drawn from a single colour holds that colour everywhere |
| DotGame.UniformCellsCard | dot_engine.py:63-67 | on a one-colour board the colour class is the whole board |
| DotGame.AllRedFirstMove | test_engine.py:4-12 | a 3 x 3 game of a single colour accepts the path (0,0), (0,1), (1,1) with score 3 and 29 moves left |
| DotGame.AllRedLoopMove | test_engine.py:14-17 | from there the loop (0,0), (0,1), (1,1), (1,0), (0,0) is accepted, clears all nine cells and brings the score to 21 with 28 moves left |
| AppEngine.RandomColorAsWritten | app.js:49-51 | the drawn index lies in [0, colorCount), and the key is defined exactly when that index is below the four palette keys |
| AppEngine.UndefinedColorIff | app.js:49-51 | some draw yields an undefined colour exactly for levels 15 and later, which ask for 5 or 6 colours |
| AppEngine.PaletteSize | app.js:17-23 | a level draws from between 1 and 4 keys, and from exactly `colors` of them when that is between 1 and 4 |
| AppEngine.RandomColor | app.js:49-51 | the corrected draw is always a key of the level's palette, and agrees with the code as written for levels of at most four colours |
| AppEngine.Colors | app.js:49-51 | each draw picks a key of the level's palette |
| AppEngine.NewEngine | app.js:26-47 | a new engine is the modular engine's new engine for the same level, after the grid-size-0-means-6 fallback, and its board holds only the level's palette |
| AppEngine.ProcessMove | app.js:80-110 | refused (`null`, engine unchanged) exactly when no moves remain or the path is invalid; otherwise it reports the start colour, whether the path repeats a coordinate, and the number of cleared cells; the count is the size of the colour class for a loop and the path length otherwise; the score rises by 20 or 10 per cleared cell; the board is full, moves drop by 1, and nothing else about the level changes |
| AppEngine.Resolve | app.js:84-109 | an accepted move reports, scores, fills the board and uses one move exactly as described for the move as a whole |
| AppEngine.ProcessMoveAgrees | app.js:80-124 | this copy's move equals the modular engine's move with the level's keys as the refill colours, minus the refill records; so the modular gravity guarantees (survivor order, refill records) hold here too |
| AppEngine.ProcessMoveKeepsPalette | app.js:112-124 | a board holding only the level's palette keeps doing so after any move |
| AppEngine.RefillKeepsPalette | app.js:112-124 | clearing any cells and refilling with the level's keys keeps the board within the level's palette |
| Copies.SameMovesTenfoldScore | dot_engine.py:47-77 | from the same board and move budget, the Python and modular JavaScript engines accept the same moves, each uses one move, and the JavaScript score gain is ten times the Python one |
| Copies.SameCellsCleared | dot_engine.py:57-75 | on an accepted move both engines empty the same cells and apply the same gravity, differing only in refill order |

app.js lines 53–78 (`isAdjacent`, `validatePath`, `detectLoop`) are
textually the same code as src/game.js lines 43–72. `AppEngine` therefore
uses `Board.IsAdjacent`, `ModularGame.ValidatePath` and
`ModularGame.DetectLoop` for them, and the contracts listed for those
members hold for app.js as well. app.js lines 1–14 repeat the level
generator of src/levels.js and are modelled by `Levels`.

## Left out

- The user interface is not modelled: `GameUI` in app.js and all of src/main.js (DOM and SVG rendering, touch and mouse gestures, animations, modals, vibration). It is presentation, not engine logic.
- The progress-bar percentage is not modelled because it is floating-point display code.
- Randomness is a parameter. Fresh colours, or for app.js raw draws in [0, 1), come from a caller-supplied sequence, and draws are exact reals rather than doubles.
- src/game.js draws from all four keys whatever the level's `colors`. This is why `ModularGame` places no palette condition on its supply.
- Console I/O is not modelled: `display`, the `print` calls inside `process_move`, and the interactive `__main__` loop in dot_engine.py.
- Path coordinates must lie on the board (`PathInBounds`). The source indexes the grid without a bounds check, and off-board coordinates are not modelled. In the JavaScript copies a row off the board reads `undefined` and indexing it throws a `TypeError`. In dot_engine.py a coordinate past the end raises `IndexError`, but a negative one wraps around (`grid[-1]` is the last row): the path `[(0, 0), (-1, 0)]` is accepted there when (0, 0) and (rows - 1, 0) hold the same colour, although they are not neighbours on the board.
- The JavaScript loop key `` `${r},${c}` `` is modelled by the coordinate itself. The string form is injective on integer pairs, so repeats are the same.
- Winning and losing (score against target, moves exhausted) are decided by the UI layer and are not part of the engine.
- A Python game with an empty colour list fails in `random.choice`. `DotGame.NewGame` has no supply for it unless the board is empty.
- The Python constructor's defaults (6 x 6, four named colours) are not modelled; `NewGame` takes rows, cols and colours explicitly.

## Findings

| source | as written | input that shows it | evidently intended | confidence | as-written member | corrected member |
|---|---|---|---|---|---|---|
| app.js:49-51 | `COLOR_KEYS[Math.floor(Math.random() * this.colorCount)]` indexes a four-key palette by a level colour count that reaches 5 and 6 from level 15 on | level 15 (`colors` 5) with `Math.random()` = 0.8 gives index 4, and `COLOR_KEYS[4]` is `undefined` | draw among the first `colors` keys, never past the four that exist | not executed | AppEngine.RandomColorAsWritten, AppEngine.UndefinedColorIff | AppEngine.RandomColor |

With the code as written, an `undefined` cell is not `null`. Gravity would
keep it and the validation would match it like a colour. The model uses
the corrected draw throughout `AppEngine`.
