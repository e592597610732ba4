/** How the copies of the engine relate: the modular JavaScript engine and
    the Python engine, given the same board and the same move budget, accept
    the same moves and empty the same cells; they differ only in the score
    unit (10 against 1 per cell) and in the order a column's refill lands. */
module Copies {

  import opened Seqs
  import opened Board
  import ModularGame
  import DotGame

  /** Given the same board and move budget, the two engines accept exactly
      the same moves, each uses one move, and the JavaScript score gain is
      ten times the Python one. */
  lemma {:induction false} SameMovesTenfoldScore(e: ModularGame.Engine, game: DotGame.Game<ModularGame.Color>, path: seq<Coord>, supply: seq<ModularGame.Color>)
    requires ModularGame.WellFormed(e) && PathInBounds(path, e.rows, e.cols) && |supply| >= e.rows * e.cols
    requires game.rows == e.rows && game.cols == e.cols && game.grid == e.grid && game.movesLeft == e.moves
    ensures var js := ModularGame.ProcessMove(e, path, supply);
            var py := DotGame.ProcessMove(game, path, supply);
            && (js.result.Some? <==> py.1)
            && (py.1 ==> js.engine.score - e.score == 10 * (py.0.score - game.score))
            && (py.1 ==> js.engine.moves - e.moves == py.0.movesLeft - game.movesLeft == -1)
  {
    InBoundsIsOnGrid(e.grid, e.rows, e.cols, path);
  }

  /** On an accepted move both engines empty the same cells and apply the
      same gravity; only the refill order differs. */
  lemma {:induction false} SameCellsCleared(e: ModularGame.Engine, game: DotGame.Game<ModularGame.Color>, path: seq<Coord>, supply: seq<ModularGame.Color>)
    requires ModularGame.WellFormed(e) && PathInBounds(path, e.rows, e.cols) && |supply| >= e.rows * e.cols
    requires game.rows == e.rows && game.cols == e.cols && game.grid == e.grid && game.movesLeft == e.moves
    requires e.moves > 0 && PathOnGrid(e.grid, path) && ValidPath(e.grid, path)
    ensures var cleared := Clear(e.grid, Cleared(e.grid, path));
            && ModularGame.ProcessMove(e, path, supply).engine.grid == Gravity(cleared, e.rows, e.cols, TopDown, supply).grid
            && DotGame.ProcessMove(game, path, supply).0.grid == Gravity(cleared, e.rows, e.cols, BottomUp, supply).grid
  {
  }
}
