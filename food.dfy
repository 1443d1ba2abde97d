/** The food pellet: where it lands and what it is worth.

    The game draws random cells until one is free; here the stream of
    random cells is a parameter `draws` (each draw on the grid, as the
    game's uniform integer draws are) and the pellet lands on the first
    free one. The random roll that picks the reward is a parameter `roll`
    in [0, 1). */
module FoodSpawn {
  import opened Board

  /** The three reward classes: points scored when eaten, and drawn size. */
  datatype Tier = Low | Medium | High {
    function Points(): int {
      match this
      case Low => 1
      case Medium => 3
      case High => 5
    }

    function Size(): int {
      match this
      case Low => 10
      case Medium => 16
      case High => 20
    }
  }

  /** The reward class a roll in [0, 1) selects: below 0.6 low, below 0.9
      medium, otherwise high (weights 60 %, 30 %, 10 % for a uniform roll). */
  function TierOf(roll: real): (t: Tier)
    requires 0.0 <= roll < 1.0
    ensures t == Low <==> roll < 0.6
    ensures t == Medium <==> 0.6 <= roll < 0.9
    ensures t == High <==> 0.9 <= roll
  {
    if roll < 0.6 then Low else if roll < 0.9 then Medium else High
  }

  /** A larger roll never yields a smaller reward; every reward is 1, 3 or 5
      points and a bigger reward is drawn bigger. */
  lemma TierOrdered(r1: real, r2: real)
    requires 0.0 <= r1 <= r2 < 1.0
    ensures TierOf(r1).Points() <= TierOf(r2).Points()
    ensures TierOf(r1).Size() <= TierOf(r2).Size()
    ensures TierOf(r2).Points() in {1, 3, 5}
  {
  }

  /** The pair (points, size) of one of the three reward classes. */
  predicate IsReward(points: int, size: int) {
    (points == 1 && size == 10) || (points == 3 && size == 16) || (points == 5 && size == 20)
  }

  predicate Free(c: Cell, snake: seq<Cell>, walls: seq<Cell>) {
    c !in snake && c !in walls
  }

  predicate HasFreeDraw(draws: seq<Cell>, snake: seq<Cell>, walls: seq<Cell>) {
    exists i :: 0 <= i < |draws| && Free(draws[i], snake, walls)
  }

  /** The index of the draw the retry loop accepts: the first draw that is
      neither on the snake nor on a wall. */
  function FirstFree(draws: seq<Cell>, snake: seq<Cell>, walls: seq<Cell>): (i: nat)
    requires HasFreeDraw(draws, snake, walls)
    ensures i < |draws| && Free(draws[i], snake, walls)
    ensures forall j :: 0 <= j < i ==> !Free(draws[j], snake, walls)
  {
    if Free(draws[0], snake, walls) then 0
    else
      var k :| 0 <= k < |draws| && Free(draws[k], snake, walls);
      assert Free(draws[1..][k - 1], snake, walls);
      1 + FirstFree(draws[1..], snake, walls)
  }

  /** The current pellet. */
  class Food {
    var position: Cell
    var points: int
    var size: int

    predicate Valid()
      reads this
    {
      InGrid(position) && IsReward(points, size)
    }

    /** A fresh pellet, placed as `Respawn` places one. */
    constructor (snake: seq<Cell>, walls: seq<Cell>, draws: seq<Cell>, roll: real)
      requires AllInGrid(draws) && HasFreeDraw(draws, snake, walls)
      requires 0.0 <= roll < 1.0
      ensures Valid()
      ensures position == draws[FirstFree(draws, snake, walls)]
      ensures position !in snake && position !in walls
      ensures points == TierOf(roll).Points() && size == TierOf(roll).Size()
    {
      position, points, size := (0, 0), 1, 10;
      new;
      Respawn(snake, walls, draws, roll);
    }

    /** Moves the pellet to the first free draw and picks a new reward class. */
    method Respawn(snake: seq<Cell>, walls: seq<Cell>, draws: seq<Cell>, roll: real)
      requires AllInGrid(draws) && HasFreeDraw(draws, snake, walls)
      requires 0.0 <= roll < 1.0
      modifies this
      ensures Valid()
      ensures position == draws[FirstFree(draws, snake, walls)]
      ensures position !in snake && position !in walls
      ensures points == TierOf(roll).Points() && size == TierOf(roll).Size()
    {
      var i := 0;
      while draws[i] in snake || draws[i] in walls
        invariant 0 <= i <= FirstFree(draws, snake, walls)
        decreases FirstFree(draws, snake, walls) - i
      {
        i := i + 1;
      }
      position := draws[i];
      if roll < 0.6 {
        points, size := 1, 10;
      } else if roll < 0.9 {
        points, size := 3, 16;
      } else {
        points, size := 5, 20;
      }
    }
  }
}
