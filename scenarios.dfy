/** Concrete ticks, derived from the contracts of `Session` alone. */
module Scenarios {
  import opened Board
  import opened FoodSpawn
  import opened Game

  const NO_KEYS := Keys(false, false, false, false)

  /** A pellet far from the starting snake. */
  const FAR: seq<Cell> := [(20, 10)]

  /** Moving right onto an empty cell: the tail follows, the score stays. */
  method PlainMove() {
    assert Free(FAR[0], INITIAL_SNAKE, []);
    var s := new Session("easy", FAR, 0.1);
    var outcome := s.Step(NO_KEYS, [], 0.1);
    assert outcome == Running;
    assert s.snake == [(6, 5), (5, 5), (4, 5)] && s.score == 0;
  }

  /** Moving onto a low pellet: the snake grows by one and scores 1, and
      the new pellet skips a draw that lies on the grown snake. */
  method EatLowPellet() {
    var onPath := [(6, 5)];
    assert Free(onPath[0], INITIAL_SNAKE, []);
    var s := new Session("easy", onPath, 0.1);
    assert s.food.position == (6, 5) && s.food.points == 1;
    var next := [(5, 5), (0, 0)];
    assert s.walls == Walls.GenerateWalls("easy");
    Walls.EasyLayout();
    assert Free(next[1], [(6, 5)] + INITIAL_SNAKE, s.walls);
    var outcome := s.Step(NO_KEYS, next, 0.95);
    assert outcome == Running;
    assert s.snake == [(6, 5), (5, 5), (4, 5), (3, 5)] && s.score == 1;
    assert s.food.position == (0, 0) && s.food.points == 5;
  }

  /** LEFT alone while heading right is ignored. */
  method ReverseKeyIgnored() {
    assert Free(FAR[0], INITIAL_SNAKE, []);
    var s := new Session("easy", FAR, 0.1);
    var outcome := s.Step(Keys(false, false, true, false), [], 0.1);
    assert s.direction == RIGHT;
  }

  /** UP and LEFT together while heading right turn the snake into its neck. */
  method TwoKeysCollide() {
    assert Free(FAR[0], INITIAL_SNAKE, []);
    var s := new Session("easy", FAR, 0.1);
    var outcome := s.Step(Keys(true, false, true, false), [], 0.1);
    assert s.direction == LEFT && outcome == Collided;
  }

  /** Leaving the grid on the left edge ends the game. */
  method LeaveGrid() {
    assert Free(FAR[0], INITIAL_SNAKE, []);
    var s := new Session("easy", FAR, 0.1);
    s.snake, s.direction := [(0, 5), (1, 5), (2, 5)], LEFT;
    Walls.EasyLayout();
    var outcome := s.Step(NO_KEYS, [], 0.1);
    assert outcome == Collided && s.snake == [(-1, 5), (0, 5), (1, 5), (2, 5)];
  }
}
