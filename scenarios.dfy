/** Worked games on the 20 x 20 board, as checks of the engine. */
module Scenarios {
  import opened Board
  import opened Engine
  import SnakeGame

  /** Four ticks to the right from the centre: the head reaches (14, 10); no growth, no score. */
  lemma PlainMoves(foods: seq<Cell>)
    requires |foods| == 4
    ensures var s := GameState([Cell(10, 10)], Cell(15, 15), Right, 0, 0, Playing, 200);
            Run(s, foods).snake == [Cell(14, 10)] && Run(s, foods).score == 0 &&
            Run(s, foods).status == Playing
  {
    var s0 := GameState([Cell(10, 10)], Cell(15, 15), Right, 0, 0, Playing, 200);
    var s1 := Tick(s0, foods[0]);
    assert s1.snake == [Cell(11, 10)];
    var s2 := Tick(s1, foods[1]);
    assert s2.snake == [Cell(12, 10)];
    var s3 := Tick(s2, foods[2]);
    assert s3.snake == [Cell(13, 10)];
    var s4 := Tick(s3, foods[3]);
    assert s4.snake == [Cell(14, 10)] && s4.score == 0;
    assert foods[1..][1..][1..][1..] == [];
    assert Run(s0, foods) == Run(s1, foods[1..]) == Run(s2, foods[1..][1..]) == Run(s3, foods[1..][1..][1..]);
  }

  /** Eating next to the head: the snake grows to two cells, scores 10, speeds up to 195, and food moves off it. */
  lemma EatAhead(freshFood: Cell)
    requires var s := GameState([Cell(10, 10)], Cell(11, 10), Right, 0, 0, Playing, 200);
             FreshFoodFits(s, freshFood)
    ensures var r := Tick(GameState([Cell(10, 10)], Cell(11, 10), Right, 0, 0, Playing, 200), freshFood);
            r.snake == [Cell(11, 10), Cell(10, 10)] && r.score == 10 && r.speed == 195 &&
            r.food != Cell(11, 10) && r.food != Cell(10, 10)
  {
  }

  /** Moving left off the edge ends the game without moving the snake. */
  lemma LeftWall(freshFood: Cell)
    ensures var s := GameState([Cell(0, 10)], Cell(15, 15), Left, 0, 0, Playing, 200);
            Tick(s, freshFood) == s.(status := GameOver)
  {
  }

  /** A reversing key press is dropped: moving UP, DOWN is refused and the next tick still goes up. */
  lemma ReverseRefused(freshFood: Cell)
    ensures var s := GameState([Cell(5, 5), Cell(5, 6), Cell(5, 7)], Cell(15, 15), Up, 20, 0, Playing, 190);
            var i := SnakeGame.KeyIntent(s.status, s.direction, s.direction, Arrow(Down));
            i == Ignore && Tick(Apply(s, i, s.food), freshFood).snake == [Cell(5, 4), Cell(5, 5), Cell(5, 6)]
  {
  }
}
