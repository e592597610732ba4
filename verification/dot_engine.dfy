/** The Python engine (dot_engine.py). The same board rules over colours of
    any type, with three differences from the JavaScript copies: the move
    budget is fixed at 30, the score is 1 point per cleared cell of a simple
    path and 2 per cleared cell of a loop, and gravity refills a column from
    the bottom up, so the first fresh colour lands on the lowest empty row. */
module DotGame {

  import opened Wrappers
  import opened Seqs
  import opened Board

  const InitialMoves: int := 30

  datatype Game<T> = Game(rows: nat, cols: nat, colors: seq<T>, grid: Grid<T>, score: int, movesLeft: int)

  predicate WellFormed<T>(game: Game<T>)
  {
    IsGrid(game.grid, game.rows, game.cols)
  }

  /** A new game: every cell drawn from `colors` (the draws are `supply`,
      taken row after row), no score, 30 moves. */
  function NewGame<T>(rows: nat, cols: nat, colors: seq<T>, supply: seq<T>): (game: Game<T>)
    requires |supply| >= rows * cols
    requires forall i :: 0 <= i < |supply| ==> supply[i] in colors
    ensures WellFormed(game) && Full(game.grid)
    ensures game.rows == rows && game.cols == cols && game.colors == colors
    ensures Flatten(game.grid) == Lift(supply[..rows * cols])
    ensures ColorsIn(game.grid, Elems(colors))
    ensures game.score == 0 && game.movesLeft == InitialMoves
  {
    var grid := Fill(rows, cols, supply);
    FillInPalette(rows, cols, supply, Elems(colors));
    Game(rows, cols, colors, grid, 0, InitialMoves)
  }

  // ------------------------------------------------------------ validation

  /** The validation loop as written: for each index `i` before the last,
      `path[i + 1]` must be adjacent to `path[i]` and hold `color`. */
  function PairsFrom<T(==)>(g: Grid<T>, path: seq<Coord>, i: nat, color: Option<T>): (ok: bool)
    requires PathOnGrid(g, path) && i < |path|
    ensures ok <==> forall k :: i < k < |path| ==> IsAdjacent(path[k - 1], path[k]) && At(g, path[k]) == color
    decreases |path| - i
  {
    if i == |path| - 1 then true
    else if !IsAdjacent(path[i], path[i + 1]) then false
    else if At(g, path[i + 1]) != color then false
    else PairsFrom(g, path, i + 1, color)
  }

  /** `validate_path`: false below two cells, otherwise the pair loop
      against the colour of the first cell. It accepts exactly the valid
      paths, the same set the JavaScript copies accept. */
  function ValidatePath<T(==)>(g: Grid<T>, path: seq<Coord>): (ok: bool)
    requires PathOnGrid(g, path)
    ensures ok <==> ValidPath(g, path)
  {
    if |path| < 2 then false
    else PairsFrom(g, path, 0, At(g, path[0]))
  }

  // -------------------------------------------------------- loop detection

  /** `detect_loop`: the path is longer than the set of its coordinates
      exactly when some coordinate repeats. */
  function DetectLoop(path: seq<Coord>): (isLoop: bool)
    ensures isLoop <==> !Distinct(path)
  {
    DistinctIffCard(path);
    |path| != |Elems(path)|
  }

  // -------------------------------------------------------------- the move

  /** The cells `process_move` empties: the path's own cells, plus, for a
      loop, every cell of the path's colour. */
  function ClearSet<T(==)>(g: Grid<T>, path: seq<Coord>): (cleared: set<Coord>)
    requires PathOnGrid(g, path) && |path| > 0
    ensures Elems(path) <= cleared
  {
    if DetectLoop(path) then Elems(path) + CellsOf(g, At(g, path[0])) else Elems(path)
  }

  /** For a valid loop the union adds nothing beyond the colour class: the
      Python loop clears exactly the cells the JavaScript loop clears. */
  lemma {:induction false} LoopClearIsColorClass<T>(g: Grid<T>, path: seq<Coord>)
    requires PathOnGrid(g, path) && ValidPath(g, path) && !Distinct(path)
    ensures ClearSet(g, path) == CellsOf(g, At(g, path[0]))
  {
    PathWithinColorClass(g, path);
  }

  /** `process_move`. Refused (false, nothing changed) when no moves remain
      or the path is invalid. Otherwise the score gains the size of the
      clear set, twice over for a loop; the clear set is emptied and
      refilled bottom-up from `supply`; one move is used. */
  function ProcessMove<T(==)>(game: Game<T>, path: seq<Coord>, supply: seq<T>): (out: (Game<T>, bool))
    requires WellFormed(game) && PathInBounds(path, game.rows, game.cols)
    requires |supply| >= game.rows * game.cols
    ensures PathOnGrid(game.grid, path)
    ensures !out.1 <==> game.movesLeft <= 0 || !ValidPath(game.grid, path)
    ensures !out.1 ==> out.0 == game
    ensures out.1 ==>
              var loop := !Distinct(path);
              var cleared := Cleared(game.grid, path);
              && out.0.score == game.score + (if loop then 2 else 1) * |cleared|
              && (!loop ==> out.0.score == game.score + |path|)
              && out.0.movesLeft == game.movesLeft - 1
              && out.0.grid == Gravity(Clear(game.grid, cleared), game.rows, game.cols, BottomUp, supply).grid
              && WellFormed(out.0) && Full(out.0.grid)
              && out.0.rows == game.rows && out.0.cols == game.cols && out.0.colors == game.colors
  {
    InBoundsIsOnGrid(game.grid, game.rows, game.cols, path);
    if game.movesLeft <= 0 then (game, false)
    else if !ValidatePath(game.grid, path) then (game, false)
    else (Resolve(game, path, supply), true)
  }

  /** The accepted branch of `process_move`. */
  function Resolve<T(==)>(game: Game<T>, path: seq<Coord>, supply: seq<T>): (next: Game<T>)
    requires WellFormed(game) && PathOnGrid(game.grid, path) && ValidPath(game.grid, path)
    requires |supply| >= game.rows * game.cols
    ensures var loop := !Distinct(path);
            var cleared := Cleared(game.grid, path);
            && next.score == game.score + (if loop then 2 else 1) * |cleared|
            && (!loop ==> next.score == game.score + |path|)
            && next.movesLeft == game.movesLeft - 1
            && next.grid == Gravity(Clear(game.grid, cleared), game.rows, game.cols, BottomUp, supply).grid
            && WellFormed(next) && Full(next.grid)
            && next.rows == game.rows && next.cols == game.cols && next.colors == game.colors
  {
    var dots := ClearSet(game.grid, path);
    var gained := if DetectLoop(path) then |dots| * 2 else |dots|;
    ClearSetIsReference(game.grid, path);
    var settled := Gravity(Clear(game.grid, dots), game.rows, game.cols, BottomUp, supply);
    game.(grid := settled.grid, score := game.score + gained, movesLeft := game.movesLeft - 1)
  }

  /** The clear set of a valid path is the colour class for a loop and the
      path's cells otherwise, and then it has one cell per path entry. */
  lemma {:induction false} ClearSetIsReference<T>(g: Grid<T>, path: seq<Coord>)
    requires PathOnGrid(g, path) && ValidPath(g, path)
    ensures ClearSet(g, path) == Cleared(g, path)
    ensures Distinct(path) ==> |ClearSet(g, path)| == |path|
  {
    DistinctIffCard(path);
    if !Distinct(path) {
      LoopClearIsColorClass(g, path);
    }
  }

  /** A board drawn from `colors` stays within `colors` after any move when
      every refill colour is drawn from `colors` too. */
  lemma {:induction false} ProcessMoveKeepsColors<T>(game: Game<T>, path: seq<Coord>, supply: seq<T>)
    requires WellFormed(game) && PathInBounds(path, game.rows, game.cols)
    requires |supply| >= game.rows * game.cols
    requires ColorsIn(game.grid, Elems(game.colors))
    requires forall i :: 0 <= i < |supply| ==> supply[i] in game.colors
    ensures ColorsIn(ProcessMove(game, path, supply).0.grid, Elems(game.colors))
  {
    InBoundsIsOnGrid(game.grid, game.rows, game.cols, path);
    if game.movesLeft > 0 && ValidPath(game.grid, path) {
      var cleared := Cleared(game.grid, path);
      ClearKeepsPalette(game.grid, cleared, Elems(game.colors));
      GravityKeepsPalette(Clear(game.grid, cleared), game.rows, game.cols, BottomUp, supply, Elems(game.colors));
    }
  }

  // ---------------------------------------------------------------- gravity

  /** One column of `apply_gravity` as written: walk the rows bottom-up,
      popping the last surviving colour while any remain and drawing a fresh
      colour otherwise. The result is the column's bottom-up settled form,
      and exactly its holes are drawn. */
  method FillColumn<T>(col: seq<Option<T>>, supply: seq<T>) returns (filled: seq<T>, used: nat)
    requires |supply| >= |col|
    ensures used == Holes(col)
    ensures filled == Settle(col, supply[..used], BottomUp)
  {
    var dots := Survivors(col);
    filled := [];
    used := 0;
    var r := |col|;
    while r > 0
      invariant 0 <= r <= |col|
      invariant |filled| == |col| - r
      invariant used <= |col| - r
      invariant used == 0 ==> dots + filled == Survivors(col)
      invariant used > 0 ==> dots == [] && filled == Reverse(supply[..used]) + Survivors(col)
    {
      r := r - 1;
      if |dots| > 0 {
        filled := [dots[|dots| - 1]] + filled;
        assert dots == dots[..|dots| - 1] + [dots[|dots| - 1]];
        dots := dots[..|dots| - 1];
      } else {
        assert supply[..used + 1] == supply[..used] + [supply[used]];
        ReverseSnoc(supply[..used], supply[used]);
        filled := [supply[used]] + filled;
        used := used + 1;
      }
    }
    assert supply[..0] == [];
  }

  // ---------------------------------------------------------- test scenario

  /** Every cell of the rows x cols board holds `x`. */
  ghost predicate Uniform<T>(g: Grid<T>, rows: nat, cols: nat, x: T)
    requires IsGrid(g, rows, cols)
  {
    forall r, c :: 0 <= r < rows && 0 <= c < cols ==> g[r][c] == Some(x)
  }

  /** On a one-colour board every chain of adjacent cells is a valid path. */
  lemma {:induction false} UniformPathValid<T>(g: Grid<T>, rows: nat, cols: nat, path: seq<Coord>, x: T)
    requires IsGrid(g, rows, cols) && Uniform(g, rows, cols, x) && PathInBounds(path, rows, cols)
    requires |path| >= 2 && forall i :: 0 < i < |path| ==> IsAdjacent(path[i - 1], path[i])
    ensures PathOnGrid(g, path) && ValidPath(g, path)
  {
    InBoundsIsOnGrid(g, rows, cols, path);
    forall i | 0 <= i < |path|
      ensures At(g, path[i]) == Some(x)
    {
      assert InBounds(path[i], rows, cols);
    }
  }

  /** Clearing any cells of a one-colour board and refilling from a supply
      of that colour gives the one-colour board back. */
  lemma {:induction false} UniformAfterGravity<T>(g: Grid<T>, rows: nat, cols: nat, cleared: set<Coord>, supply: seq<T>, x: T)
    requires IsGrid(g, rows, cols) && Uniform(g, rows, cols, x)
    requires |supply| >= rows * cols && forall i :: 0 <= i < |supply| ==> supply[i] == x
    ensures var out := Gravity(Clear(g, cleared), rows, cols, BottomUp, supply).grid;
            IsGrid(out, rows, cols) && Uniform(out, rows, cols, x)
  {
    var h := Clear(g, cleared);
    assert ColorsIn(g, {x});
    ClearKeepsPalette(g, cleared, {x});
    GravityKeepsPalette(h, rows, cols, BottomUp, supply, {x});
    UniformGrid(Gravity(h, rows, cols, BottomUp, supply).grid, rows, cols, x);
  }

  /** On a board holding one colour everywhere, with fresh colours of that
      colour, any chain of adjacent cells is accepted; a simple chain scores
      its length, a loop clears the whole board and scores twice its size,
      and the board still holds that one colour everywhere. */
  lemma {:induction false} UniformBoardMove<T>(game: Game<T>, path: seq<Coord>, supply: seq<T>, x: T)
    requires WellFormed(game) && Uniform(game.grid, game.rows, game.cols, x)
    requires PathInBounds(path, game.rows, game.cols)
    requires |supply| >= game.rows * game.cols && forall i :: 0 <= i < |supply| ==> supply[i] == x
    requires |path| >= 2 && forall i :: 0 < i < |path| ==> IsAdjacent(path[i - 1], path[i])
    requires game.movesLeft > 0
    ensures var out := ProcessMove(game, path, supply);
            && out.1
            && out.0.movesLeft == game.movesLeft - 1
            && out.0.score == game.score + (if Distinct(path) then |path| else 2 * (game.rows * game.cols))
            && WellFormed(out.0) && out.0.rows == game.rows && out.0.cols == game.cols
            && Uniform(out.0.grid, game.rows, game.cols, x)
  {
    UniformPathValid(game.grid, game.rows, game.cols, path, x);
    var cleared := if !Distinct(path) then CellsOf(game.grid, Some(x)) else Elems(path);
    if !Distinct(path) {
      UniformCellsCard(game.grid, game.rows, game.cols, x);
    }
    UniformAfterGravity(game.grid, game.rows, game.cols, cleared, supply, x);
  }

  /** A game drawn from a single colour holds that colour everywhere. */
  lemma {:induction false} SingleColourStart<T>(rows: nat, cols: nat, supply: seq<T>, x: T)
    requires |supply| >= rows * cols && forall i :: 0 <= i < |supply| ==> supply[i] == x
    ensures var game := NewGame(rows, cols, [x], supply);
            WellFormed(game) && Uniform(game.grid, rows, cols, x)
  {
    var game := NewGame(rows, cols, [x], supply);
    assert Elems([x]) == {x};
    UniformGrid(game.grid, rows, cols, x);
  }

  /** The first half of the scenario in test_engine.py: a 3 x 3 game drawn
      from the single colour `x` ("red" there) accepts the path (0,0),
      (0,1), (1,1), scoring 3 and leaving 29 moves, and every cell still
      holds `x` when the refill colours are `x` too. */
  lemma {:induction false} AllRedFirstMove<T>(supply: seq<T>, refill: seq<T>, x: T)
    requires |supply| >= 9 && forall i :: 0 <= i < |supply| ==> supply[i] == x
    requires |refill| >= 9 && forall i :: 0 <= i < |refill| ==> refill[i] == x
    ensures var game := NewGame(3, 3, [x], supply);
            var first := ProcessMove(game, [Coord(0, 0), Coord(0, 1), Coord(1, 1)], refill);
            && first.1 && first.0.score == 3 && first.0.movesLeft == 29
            && WellFormed(first.0) && first.0.rows == 3 && first.0.cols == 3
            && Uniform(first.0.grid, 3, 3, x)
  {
    SingleColourStart(3, 3, supply, x);
    var game := NewGame(3, 3, [x], supply);
    var path := [Coord(0, 0), Coord(0, 1), Coord(1, 1)];
    assert Distinct(path);
    UniformBoardMove(game, path, refill, x);
  }

  /** The second half: from that position the closed path (0,0), (0,1),
      (1,1), (1,0), (0,0) is a loop, so all nine cells are cleared at 2
      points each and the score reaches 21 with 28 moves left. */
  lemma {:induction false} AllRedLoopMove<T>(game: Game<T>, refill: seq<T>, x: T)
    requires WellFormed(game) && game.rows == 3 && game.cols == 3 && Uniform(game.grid, 3, 3, x)
    requires game.score == 3 && game.movesLeft == 29
    requires |refill| >= 9 && forall i :: 0 <= i < |refill| ==> refill[i] == x
    ensures var second := ProcessMove(game, [Coord(0, 0), Coord(0, 1), Coord(1, 1), Coord(1, 0), Coord(0, 0)], refill);
            && second.1 && second.0.score == 21 && second.0.movesLeft == 28
  {
    var loop := [Coord(0, 0), Coord(0, 1), Coord(1, 1), Coord(1, 0), Coord(0, 0)];
    assert loop[0] == loop[4];
    UniformBoardMove(game, loop, refill, x);
  }

  /** A full board whose colours all lie in {x} holds x everywhere. */
  lemma UniformGrid<T>(g: Grid<T>, rows: nat, cols: nat, x: T)
    requires IsGrid(g, rows, cols) && Full(g) && ColorsIn(g, {x})
    ensures Uniform(g, rows, cols, x)
  {
  }

  /** On a board holding x everywhere, the cells of x are all rows x cols. */
  lemma UniformCellsCard<T>(g: Grid<T>, rows: nat, cols: nat, x: T)
    requires IsGrid(g, rows, cols) && Uniform(g, rows, cols, x)
    ensures |CellsOf(g, Some(x))| == rows * cols
  {
    assert CellsOf(g, Some(x)) == Rect(rows, cols);
    RectCard(rows, cols);
  }
}
