/** The level table: fifty levels whose move budget shrinks, whose target
    score grows, and whose palette and grid widen as the player advances.
    The same generator appears in src/levels.js and at the top of app.js. */
module Levels {

  /** One level's configuration. `id` 0 stands for a configuration without
      an id (the engines' default configuration has none). */
  datatype LevelConfig = LevelConfig(id: nat, moves: int, targetScore: int, colors: nat, gridSize: nat)

  const LevelCount: nat := 50

  function Max(a: int, b: int): int
  {
    if a >= b then a else b
  }

  /** Level `i` of the table (1-based). */
  function Level(i: nat): (l: LevelConfig)
    requires 1 <= i <= LevelCount
    ensures l.id == i
    ensures l.moves >= 15
    ensures l.moves == (if i <= 20 then 35 - i else 15)
    ensures l.targetScore == 500 + 200 * i
    ensures 3 <= l.colors <= 6
    ensures l.colors == 3 <==> i < 5
    ensures l.colors <= 4 <==> i < 15
    ensures l.colors == 6 <==> i >= 30
    ensures l.gridSize == 6 <==> i < 20
    ensures l.gridSize == 6 || l.gridSize == 7
  {
    LevelConfig(
      id := i,
      moves := Max(35 - i, 15),
      targetScore := 500 + i * 200,
      colors := if i < 5 then 3 else if i < 15 then 4 else if i < 30 then 5 else 6,
      gridSize := if i < 20 then 6 else 7)
  }

  /** The generator loop: pushes levels 1 to 50 in order. */
  method GenerateLevels() returns (levels: seq<LevelConfig>)
    ensures |levels| == LevelCount
    ensures forall k :: 0 <= k < |levels| ==> levels[k].id == k + 1
    ensures forall k :: 0 <= k < |levels| ==> levels[k] == Level(k + 1)
  {
    levels := [];
    var i := 1;
    while i <= 50
      invariant 1 <= i <= 51
      invariant |levels| == i - 1
      invariant forall k :: 0 <= k < |levels| ==> levels[k] == Level(k + 1)
    {
      var moves := Max(35 - i, 15);
      var targetScore := 500 + i * 200;
      var colors := if i < 5 then 3 else if i < 15 then 4 else if i < 30 then 5 else 6;
      levels := levels + [LevelConfig(i, moves, targetScore, colors, if i < 20 then 6 else 7)];
      i := i + 1;
    }
  }

  /** Later levels are never easier: the budget never grows, the target rises
      by exactly 200 per level, and the palette and the grid never shrink. */
  lemma {:induction false} LevelsMonotone(i: nat, j: nat)
    requires 1 <= i <= j <= LevelCount
    ensures Level(j).moves <= Level(i).moves
    ensures Level(j).targetScore - Level(i).targetScore == 200 * (j - i)
    ensures Level(i).colors <= Level(j).colors
    ensures Level(i).gridSize <= Level(j).gridSize
  {
  }
}
