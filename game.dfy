/** One game session and its per-tick update: steer from the held arrow
    keys, move the head, test for a collision, then eat or drag the tail. */
module Game {
  import opened Board
  import opened Walls
  import opened FoodSpawn

  /** Which arrow keys are held down during a tick. */
  datatype Keys = Keys(up: bool, down: bool, left: bool, right: bool)

  /** A tick either leaves the game running or ends it for good. */
  datatype Outcome = Running | Collided

  const UP: Cell := (0, -1)
  const DOWN: Cell := (0, 1)
  const LEFT: Cell := (-1, 0)
  const RIGHT: Cell := (1, 0)

  predicate IsHeading(d: Cell) {
    d == UP || d == DOWN || d == LEFT || d == RIGHT
  }

  function Opposite(d: Cell): Cell {
    (-d.0, -d.1)
  }

  /** Exactly one arrow key is held. */
  predicate OneKey(keys: Keys) {
    (if keys.up then 1 else 0) + (if keys.down then 1 else 0)
      + (if keys.left then 1 else 0) + (if keys.right then 1 else 0) == 1
  }

  /** The heading a single held key asks for. */
  function KeyHeading(keys: Keys): Cell
    requires OneKey(keys)
  {
    if keys.up then UP else if keys.down then DOWN else if keys.left then LEFT else RIGHT
  }

  /** The heading after the held keys are applied in the order UP, DOWN,
      LEFT, RIGHT, each one ignored when the heading at that moment is its
      exact opposite. The result is the old heading or that of a held key;
      the last held key in that order decides the axis of the result. */
  function Steer(d: Cell, keys: Keys): (r: Cell)
    ensures r == d || (keys.up && r == UP) || (keys.down && r == DOWN)
              || (keys.left && r == LEFT) || (keys.right && r == RIGHT)
    ensures IsHeading(d) && keys.right ==> r == RIGHT || r == LEFT
    ensures IsHeading(d) && keys.left && !keys.right ==> r == LEFT || r == RIGHT
    ensures IsHeading(d) && keys.down && !keys.left && !keys.right ==> r == DOWN || r == UP
    ensures IsHeading(d) && keys.up && !keys.down && !keys.left && !keys.right ==> r == UP || r == DOWN
    ensures IsHeading(d) ==> IsHeading(r)
    ensures !keys.up && !keys.down && !keys.left && !keys.right ==> r == d
    ensures OneKey(keys) && IsHeading(d) && KeyHeading(keys) != Opposite(d) ==> r == KeyHeading(keys)
    ensures OneKey(keys) && IsHeading(d) && KeyHeading(keys) == Opposite(d) ==> r == d
    ensures OneKey(keys) && IsHeading(d) ==> r != Opposite(d)
  {
    var afterUp := if keys.up && d != DOWN then UP else d;
    var afterDown := if keys.down && afterUp != UP then DOWN else afterUp;
    var afterLeft := if keys.left && afterDown != RIGHT then LEFT else afterDown;
    if keys.right && afterLeft != LEFT then RIGHT else afterLeft
  }

  /** Two keys held together are checked one after the other, so the second
      can undo the first: moving right with UP and LEFT held turns the snake
      straight round, into its own neck. */
  lemma TwoKeysReverse()
    ensures Steer(RIGHT, Keys(true, false, true, false)) == Opposite(RIGHT)
    ensures Collides(Advance((5, 5), Steer(RIGHT, Keys(true, false, true, false))), INITIAL_SNAKE, [])
  {
  }

  /** `a` and `b` share a side. */
  predicate Adjacent(a: Cell, b: Cell) {
    (a.0 == b.0 && (a.1 == b.1 - 1 || a.1 == b.1 + 1))
      || (a.1 == b.1 && (a.0 == b.0 - 1 || a.0 == b.0 + 1))
  }

  /** The cell one step from `head` along `d`: for each of the four
      headings, a neighbour of `head`. */
  function Advance(head: Cell, d: Cell): (h: Cell)
    ensures IsHeading(d) ==> Adjacent(h, head)
  {
    (head.0 + d.0, head.1 + d.1)
  }

  /** The new head `h` ends the game when it meets the body as it was before
      the move, a wall, or the edge of the grid. The body is taken before the
      tail moves on, so stepping onto the cell the tail occupies is a
      collision, although the tail would leave that cell in the same tick. */
  predicate Collides(h: Cell, body: seq<Cell>, walls: seq<Cell>)
    ensures |body| > 0 && h == body[|body| - 1] ==> Collides(h, body, walls)
  {
    h in body || h in walls || !InGrid(h)
  }

  /** The body after a tick that does not collide: the new head in front,
      and the old tail cell dropped unless the snake ate. */
  function Moved(snake: seq<Cell>, h: Cell, eats: bool): (r: seq<Cell>)
    requires |snake| > 0
    ensures |r| == if eats then |snake| + 1 else |snake|
    ensures r[0] == h && r[1..] <= snake
    ensures forall c :: c in r ==> c == h || c in snake
  {
    if eats then [h] + snake else [h] + snake[..|snake| - 1]
  }

  /** What holds of the snake between ticks: non-empty, no cell twice,
      every cell on the grid and none on a wall. */
  predicate WellFormed(snake: seq<Cell>, walls: seq<Cell>) {
    && |snake| > 0
    && NoDuplicates(snake)
    && AllInGrid(snake)
    && forall i :: 0 <= i < |snake| ==> snake[i] !in walls
  }

  /** A tick that does not collide keeps the snake well formed, whether or
      not it eats. */
  lemma MovedWellFormed(snake: seq<Cell>, walls: seq<Cell>, h: Cell, eats: bool)
    requires WellFormed(snake, walls)
    requires !Collides(h, snake, walls)
    ensures WellFormed(Moved(snake, h, eats), walls)
  {
  }

  /** Against a well-formed body, a collision is exactly a move after which
      the grown body (the new head in front, nothing dropped) is no longer
      well formed: the head repeats a cell, lies on a wall or is off the grid. */
  lemma CollisionBreaksBody(h: Cell, body: seq<Cell>, walls: seq<Cell>)
    requires WellFormed(body, walls)
    ensures Collides(h, body, walls) <==> !WellFormed([h] + body, walls)
  {
    var grown := [h] + body;
    if h in body {
      var j :| 0 <= j < |body| && body[j] == h;
      assert grown[0] == grown[j + 1];
    } else if h in walls || !InGrid(h) {
      assert grown[0] == h;
    } else {
      forall i, j | 0 <= i < j < |grown| ensures grown[i] != grown[j] {
        assert grown[j] == body[j - 1];
        if i > 0 { assert grown[i] == body[i - 1]; }
      }
      forall i | 0 <= i < |grown| ensures InGrid(grown[i]) && grown[i] !in walls {
        if i > 0 { assert grown[i] == body[i - 1]; }
      }
    }
  }

  /** Each cell of the body shares a side with the next one. */
  predicate Connected(snake: seq<Cell>) {
    forall i :: 0 < i < |snake| ==> Adjacent(snake[i - 1], snake[i])
  }

  /** A head placed next to the old head keeps the body a chain of
      neighbouring cells, whether or not the tail is dropped. */
  lemma MovedConnected(snake: seq<Cell>, h: Cell, eats: bool)
    requires |snake| > 0 && Connected(snake) && Adjacent(h, snake[0])
    ensures Connected(Moved(snake, h, eats))
  {
  }

  /** The starting snake is well formed against every wall layout. */
  lemma InitialWellFormed(difficulty: string)
    ensures WellFormed(INITIAL_SNAKE, GenerateWalls(difficulty))
  {
  }

  /** The state of a session: the snake (head first), its heading, the
      score, the walls and the current pellet. */
  class Session {
    var snake: seq<Cell>
    var direction: Cell
    var score: int
    var walls: seq<Cell>
    var food: Food

    /** What holds between ticks while the game runs. The pellet may lie on
        a wall: the first one is placed before the walls are built. */
    ghost predicate Valid()
      reads this, food
    {
      && WellFormed(snake, walls)
      && Connected(snake)
      && IsHeading(direction)
      && score >= 0
      && food.Valid()
      && food.position !in snake
    }

    /** The cell the head would move to under the held keys. */
    function NextHead(keys: Keys): Cell
      reads this
      requires |snake| > 0
    {
      Advance(snake[0], Steer(direction, keys))
    }

    /** A new session: the starting snake facing right, score 0, a pellet
        placed while there are no walls yet, then the walls for the chosen
        difficulty. */
    constructor (difficulty: string, draws: seq<Cell>, roll: real)
      requires AllInGrid(draws) && HasFreeDraw(draws, INITIAL_SNAKE, [])
      requires 0.0 <= roll < 1.0
      ensures Valid() && fresh(food)
      ensures snake == INITIAL_SNAKE && direction == RIGHT && score == 0
      ensures walls == GenerateWalls(difficulty)
      ensures food.position == draws[FirstFree(draws, INITIAL_SNAKE, [])]
      ensures food.points == TierOf(roll).Points() && food.size == TierOf(roll).Size()
    {
      snake := INITIAL_SNAKE;
      direction := RIGHT;
      score := 0;
      walls := [];
      food := new Food(INITIAL_SNAKE, [], draws, roll);
      walls := GenerateWalls(difficulty);
      InitialWellFormed(difficulty);
    }

    /** One tick of the main loop. The pellet is redrawn only when eaten,
        and then `draws` must hold a cell free of the grown snake and the
        walls. A collision ends the game: the new head has already been put
        in front of the body, nothing else changes, and the state is no
        longer valid, so no further tick can be taken. */
    method Step(keys: Keys, draws: seq<Cell>, roll: real) returns (outcome: Outcome)
      requires Valid()
      requires AllInGrid(draws) && 0.0 <= roll < 1.0
      requires (!Collides(NextHead(keys), snake, walls) && NextHead(keys) == food.position)
        ==> HasFreeDraw(draws, [NextHead(keys)] + snake, walls)
      modifies this, food
      ensures food == old(food) && walls == old(walls)
      ensures direction == Steer(old(direction), keys)
      ensures var h := Advance(old(snake[0]), direction);
        && (outcome == Collided <==> Collides(h, old(snake), walls))
        && (outcome == Collided ==> snake == [h] + old(snake) && score == old(score) && unchanged(food))
        && (outcome == Running ==> snake == Moved(old(snake), h, h == old(food.position)))
        && (outcome == Running && h != old(food.position) ==> score == old(score) && unchanged(food))
        && (outcome == Running && h == old(food.position) ==>
              && score == old(score) + old(food.points)
              && food.position == draws[FirstFree(draws, snake, walls)]
              && food.points == TierOf(roll).Points() && food.size == TierOf(roll).Size())
      ensures score >= old(score)
      ensures outcome == Running ==> Valid()
      ensures outcome == Collided ==> !Valid()
    {
      ghost var body, next := snake, NextHead(keys);
      direction := Steer(direction, keys);

      var newHead := (snake[0].0 + direction.0, snake[0].1 + direction.1);
      assert newHead == Advance(body[0], direction) == next;
      snake := [newHead] + snake;
      assert snake[1..] == body;

      var hit := newHead in snake[1..] || newHead in walls
         || newHead.0 < 0 || newHead.0 >= GRID_WIDTH
         || newHead.1 < 0 || newHead.1 >= GRID_HEIGHT;
      assert hit == Collides(newHead, body, walls);
      if hit {
        CollisionBreaksBody(newHead, body, walls);
        return Collided;
      }

      MovedWellFormed(body, walls, newHead, newHead == food.position);
      MovedConnected(body, newHead, newHead == food.position);
      if newHead == food.position {
        assert snake == Moved(body, newHead, true);
        score := score + food.points;
        food.Respawn(snake, walls, draws, roll);
      } else {
        snake := snake[..|snake| - 1];
        assert snake == Moved(body, newHead, false);
      }
      outcome := Running;
    }

    /** Restores the starting snake, heading and score, redraws the pellet
        against the starting snake and the walls in force, and then clears
        the walls. */
    method Reset(draws: seq<Cell>, roll: real)
      requires AllInGrid(draws) && HasFreeDraw(draws, INITIAL_SNAKE, walls)
      requires 0.0 <= roll < 1.0
      modifies this, food
      ensures snake == INITIAL_SNAKE && direction == RIGHT && score == 0 && walls == []
      ensures food == old(food)
      ensures food.position == draws[FirstFree(draws, INITIAL_SNAKE, old(walls))]
      ensures food.points == TierOf(roll).Points() && food.size == TierOf(roll).Size()
      ensures Valid()
    {
      snake := INITIAL_SNAKE;
      direction := RIGHT;
      score := 0;
      food.Respawn(snake, walls, draws, roll);
      walls := [];
    }
  }
}
