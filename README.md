# Snake game: the per-tick update, food placement and wall layouts

This project models the gameplay core of a single-screen snake game
(`games.py`). The snake moves on a 30 x 20 grid and eats food pellets worth
1, 3 or 5 points. It must avoid its own body, the walls of the chosen
difficulty and the edge of the grid. The model has four modules:

- `Board` (`board.dfy`): cells as integer pairs, the grid bounds, the
  starting snake `[(5,5), (4,5), (3,5)]`, and a lemma that a list without
  repeated cells covers as many cells as it has entries.
- `Walls` (`walls.dfy`): `generate_walls` as the pure function
  `GenerateWalls`. Its list comprehensions are the recursive functions `Row`
  and `Column`. Lemmas give the exact easy and normal lists, the hard list
  entry by entry, and the sizes (5, 13 and 33 entries covering 5, 13 and 32
  cells). They show that every wall is on the
  grid and clear of the starting snake, and that any label other than
  `"easy"` or `"normal"` gets the hard layout.
- `FoodSpawn` (`food.dfy`): the reward classes, and the class `Food` with the
  fields `position`, `points` and `size` that `Respawn` reassigns.
  - The random cells the retry loop draws are a parameter `draws`. Every draw
    is on the grid, as the game's `randint` draws are.
  - The loop accepts the first draw that is on neither the snake nor a wall.
    The function `FirstFree` names that draw. The method requires that
    such a draw exists.
  - The roll `random.random()` is a `real` in `[0, 1)`. `TierOf` maps it to
    (1, 10) below 0.6, to (3, 16) below 0.9, and to (5, 20) otherwise.
- `Game` (`game.dfy`): the module-level game state as the class `Session`.
  - It holds the fields `snake` (head first), `direction`, `score`, `walls`
    and `food`.
  - `Step` is one iteration of the main loop at lines 200-218. It applies
    the held keys, inserts the new head at the front and tests for a
    collision. It then either adds the pellet's points and redraws the
    pellet, or drops the tail.
  - `Valid()` is what holds between ticks while the game runs. The snake is
    non-empty, has no repeated cell, lies on the grid and off the walls, and
    is a chain of neighbouring cells. The heading is a unit step, the score is
    non-negative, and the pellet is on the grid, off the snake, with a valid
    reward.
  - A collision ends the game for good: `game_over_screen` never returns to
    the loop. `Step` reports it as the outcome `Collided`. It then leaves the
    state exactly as the game holds it. The new head is already in front of
    the body and the direction is updated, but nothing is popped, scored or
    redrawn. `Valid()` holds after every `Running` tick and fails after a
    `Collided` one, so no further tick can be taken from a collided state.

The pure functions `Steer`, `Advance`, `Collides` and `Moved` define the parts
of a tick. `Step`'s postcondition ties the new state to them, and lemmas
prove their properties. `Steer` applies the arrow keys in the order UP, DOWN,
LEFT, RIGHT. It skips each key when the heading at that moment is that key's
exact opposite. So one held key never reverses the snake. Two held keys can:
heading right with UP and LEFT held, UP turns the snake up and LEFT then
turns it left. The snake then runs into its own neck (`TwoKeysReverse`, and
the client method `Scenarios.TwoKeysCollide`). The collision test is made
against the body as it was before the move, including the tail cell that
would be vacated (`Collides`). Against a well-formed body, a collision is
exactly a move after which the grown body is no longer well formed
(`CollisionBreaksBody`).

`scenarios.dfy` replays concrete ticks through the `Session` contracts. They
are a plain move, eating a low pellet, an ignored reverse key, the two-key
reversal, and leaving the grid on the left.

Some behaviour of the code worth noting:

- The walls are a list, not a set. The hard list repeats `(10, 15)`.
- The layouts are not nested: the easy wall `(5, 7)` is not a normal wall.
  Only normal ⊆ hard holds (`LayoutNesting`).
- The first pellet is placed at line 68, while `walls` is still `[]`. The
  walls are only built at lines 149-151, so that pellet may lie on a wall.
  `Valid()` therefore does not keep the pellet off the walls. Every later
  pellet is placed off the walls in force.
- A tick applies up to four held keys in sequence rather than one candidate
  heading, which allows the two-key reversal above.
- On a collision the snake list has already gained its new head, though it is never drawn.

## Model

| member | source | states |
|---|---|---|
| `Walls.Row` | games.py:176 | `[(i, y) for i in range(lo, hi)]`: hi - lo entries (none when lo >= hi), entry k being (lo + k, y) |
| `Walls.Column` | games.py:178 | `[(x, i) for i in range(lo, hi)]`: hi - lo entries (none when lo >= hi), entry k being (x, lo + k) |
| `Walls.GenerateWalls` | games.py:174-180 | the easy, normal and any other label give 5, 13 and 33 entries, all on the 30 x 20 grid |
| `Walls.NormalLayout` | games.py:177-178 | the normal layout is exactly x = 7..14 on row 7 followed by y = 10..14 on column 10, so no normal wall lies left of column 7 |
| `Walls.HardLayout` | games.py:179-180 | the hard layout has 33 entries: x = 7..19 on row 7, then y = 10..19 on column 10, then x = 10..19 on row 15, entry by entry |
| `Walls.EasyLayout` | games.py:175-176 | the easy layout is exactly (5,7), (6,7), (7,7), (8,7), (9,7) |
| `Walls.UnknownLabelIsHard` | games.py:174-180 | any label other than "easy" and "normal" gets the hard layout |
| `Walls.WallsClearOfStart` | games.py:30 | for every label, every wall is on the 30 x 20 grid, on row 7 or below, and off the starting snake |
| `Walls.HardLayoutRepeatsOneCell` | games.py:180 | the hard list has 33 entries, and the only two equal entries are positions 18 and 23, both (10, 15) |
| `Walls.LayoutSizes` | games.py:174-180 | easy, normal and hard have 5, 13 and 33 entries covering 5, 13 and 32 distinct cells |
| `Walls.LayoutNesting` | games.py:176-180 | every normal wall is a hard wall, while the easy wall (5, 7) is not a normal wall |
| `FoodSpawn.TierOf` | games.py:51-60 | the reward class is low exactly when roll < 0.6, medium exactly when 0.6 <= roll < 0.9, high exactly when roll >= 0.9 |
| `FoodSpawn.TierOrdered` | games.py:51-60 | a larger roll never gives fewer points or a smaller pellet, and points are 1, 3 or 5 |
| `FoodSpawn.FirstFree` | games.py:46-49 | the draw the retry loop accepts is free of snake and walls, and every earlier draw was occupied |
| `FoodSpawn.Food.Respawn` | games.py:45-60 | the pellet moves to the first free draw, so it is on the grid and off the snake and walls, and its points and size are those of the roll's class |
| `FoodSpawn.Food.constructor` | games.py:42-43 | a new pellet is placed exactly as `Respawn` places one |
| `Game.Steer` | games.py:200-204 | the new heading is the old one or the heading of a held key; the last held key in the order UP, DOWN, LEFT, RIGHT fixes the axis (it is adopted, or the heading is already its opposite); with no key the heading is unchanged; a single key is adopted unless it is the exact opposite, so a single key never reverses |
| `Game.TwoKeysReverse` | games.py:201-206 | heading right with UP and LEFT held, the heading becomes left, and the new head lands on the snake's own body |
| `Game.Advance` | games.py:206 | for each of the four headings, the new head is a neighbour of the old head |
| `Game.Collides` | games.py:207-211 | the test is made against the body before the tail moves on, so moving onto the current tail cell is a collision, although the tail would leave it in the same tick |
| `Game.CollisionBreaksBody` | games.py:207-211 | for a well-formed body, the new head collides exactly when the grown body (head in front, nothing dropped) repeats a cell, touches a wall or leaves the grid |
| `Game.Moved` | games.py:207 | after a non-colliding tick the body is the new head followed by a prefix of the old body: the whole old body when eating, all but the tail otherwise |
| `Game.MovedWellFormed` | games.py:207-218 | a non-colliding tick keeps the snake non-empty, free of repeated cells, on the grid and off the walls, whether or not it eats |
| `Game.MovedConnected` | games.py:206-218 | a new head next to the old head keeps the body a chain of neighbouring cells |
| `Game.InitialWellFormed` | games.py:30 | the starting snake is well formed against every wall layout |
| `Game.Session.constructor` | games.py:30-34 | a session starts with the starting snake heading right and score 0. Its pellet is placed against no walls (line 68) before the difficulty's walls are built (lines 149-151), and the session is valid |
| `Game.Session.Step` | games.py:200-218 | the heading becomes `Steer` of the old heading. The tick collides exactly when the new head is in the old body (tail included), in the walls or off the grid; it then leaves the new head prepended and score and pellet unchanged. Otherwise the body becomes `Moved` of the old one. Eating adds the pellet's points and redraws the pellet against the grown snake. Not eating leaves score and pellet unchanged. The score never decreases; a running tick keeps `Valid()` and a colliding tick leaves a state that is not `Valid()` |
| `Game.Session.Reset` | games.py:87-94 | restores the starting snake, heading and score and redraws the pellet against the starting snake and the old walls. It then clears the walls, and the session is valid |

## Left out

- Rendering: `draw_cell`, `draw_eyes`, `Food.draw`, `draw_walls`, `draw_button`, and the per-segment fade colours are presentation through pygame.
- Menus and flow: `main_menu`, `difficulty_menu`, `game_over_screen`, event polling and `sys.exit` are user-interface plumbing. A collision is only the terminal outcome `Collided`.
- Timing: `clock.tick`, the frame rate per difficulty (7, 12, 18) and the eye-blink timer (also zeroed by `reset_game`) do not affect gameplay.
- Randomness: the position draws are a finite parameter sequence. The method requires a free cell among them. The source's `while True` retry loop ends only by chance, and its termination is not modelled.
- FoodSpawn.TierOf: the roll is an exact real, so the binary floating-point rounding of 0.6 and 0.9 at the two thresholds is not modelled.
- FoodSpawn.Food.Respawn: the source reads the global `snake` and `walls`; here they are parameters, which the callers pass as the session's current values.
- Game.Session.Step: the four conditional assignments to `direction` are applied as the single assignment `direction := Steer(direction, keys)`, which keeps the proof of the tick small; `Steer` makes the same four tests in the same order.
- Game.Session.Reset: the source never calls `reset_game`; it is modelled as written.
