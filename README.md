# Wormy: a Dafny model of the grid-snake simulation

This project models the simulation core of the Wormy snake game in
`snakeTest.py`. The game runs on a grid of 32 × 24 cells: 640 × 480 pixels
in cells of 20 pixels each. The snake is an ordered list of cells, head
first, plus a heading. The main loop does the following once per tick:

1. It applies the direction keys pressed since the last tick.
2. It runs the `alive` scan and drops its result.
3. It calls `eat_apple`. This keeps the tail when the head is on the apple, and deletes the tail cell otherwise.
4. It respawns the apple at a random cell if the apple was eaten.
5. It calls `move`, which inserts a new head one unit ahead.

The program starts with a three-cell worm facing right and a random apple.
The score is the body length minus 3.

Modules, one per component of the program:

- `Geometry` (`geometry.dfy`) holds the grid constants, cells, headings and the unit step `NextHead`. It also holds the boundary-line test, and `RandInt`, a model of `random.randint` in which the random source is a parameter.
- `Steering` (`steering.dfy`) holds the turn rule of the main loop, one key (`Turn`) and a sequence of keys (`TurnAll`).
- `SnakeBody` (`snake.dfy`) holds the `Snake` class. Its `cells` field is a `seq` that the methods reassign in place of the Python list. `EatApple`, `Move` and the read-only loop `Alive` work on that field. Beside the class are their value-level partners `EatOrDrop`, `Moved` and the predicate `Collision`.
- `Game` (`game.dfy`) holds the apple spawner and the opening worm. It also holds the tick as a function on values (`Step`), a run of ticks (`Run`) and the apple count (`Eaten`). The imperative loop is `HandleEvents`, `Tick` and `RunGame`. Each of these is proved to end in the state the value-level functions describe.
- `GameProperties` (`properties.dfy`) holds the lemmas about whole runs, plus the concrete situations worked through by hand.

How the model treats the source's quirks:

- The random source is a parameter. `randint(a, b)` is the value at position `draw mod (b - a + 1)` of `[a, b]`. `RandIntCovers` shows that every value of the range can be drawn, so no outcome of the source is lost.
- `alive` returns nothing on every path, and the main loop ignores its result. `Snake.Alive` returns the boolean the scan computes (`gameOver`). `Step` records it as `gameOver`, and `Run` goes on whatever it says.
- `alive` tests the globals `CELLWIDTH`/`CELLHEIGHT` and never the stored `dim`. `Collision` is a function of the cells alone.
- The boundary test compares against exactly -1 and the width/height. A head is flagged while its x is -1 or 32, or its y is -1 or 24. These four lines run on past the grid's corners, so a head walking along one of them stays flagged (`BoundaryLinePastCorner`). A head anywhere else off the grid is not flagged, for example two cells past the edge going straight (`PastTheWallUnflagged`). A unit step from the grid always lands on the grid or on one of the four lines (`StepLeavesGridOntoWall`). Coordinates are unbounded integers, so a snake that has gone past the edge keeps walking.
- The apple spawner does not consult the snake. Every grid cell, including one under the body, can be chosen (`RandomLocationCovers`).

Two behaviours of the code a reader may not expect:

- **Turn rule.** Two keys in one tick can reverse the snake. The code tests each key against the heading that earlier keys of the same tick have already changed. So heading right, the keys `up` then `left` turn the snake left, and the head moves back onto the neck (`TwoRequestsCanReverse`, `TwoKeysTurnBackIntoNeck`). With at most one key per tick the head never turns back (`OneKeyNeverTurnsBack`).
- **Eating.** An apple is eaten on the tick after the head arrives on it, because `eat_apple` tests the head before `move` runs. Heading right from (5,5) with the apple at (6,5), the first tick moves onto the apple without eating, and the second tick eats it (`EatenTickAfterArrival`).

## Model

| member | source | states |
|---|---|---|
| `Geometry.Opposite` | snakeTest.py:286-293 | the opposite heading used by the turn rule is never the heading itself; its meaning as the inverse step is stated by `StepBack` |
| `Geometry.OppositeInvolution` | snakeTest.py:286-293 | left and right, and up and down, are each other's opposites, so taking the opposite twice gives the heading back |
| `Geometry.NextHead` | snakeTest.py:88-95 | the new head is at Manhattan distance 1 from the old head; y decreases exactly for up, increases exactly for down, x decreases exactly for left and increases exactly for right |
| `Geometry.StepBack` | snakeTest.py:88-95 | a step in a heading followed by a step in the opposite heading returns to the starting cell |
| `Geometry.NextHeadInjective` | snakeTest.py:88-95 | different headings give different new heads |
| `Geometry.LeavingGridHitsWall` | snakeTest.py:101 | one unit step from a cell on the grid lands on the grid or on one of the lines x = -1, x = 32, y = -1, y = 24 that the boundary-line test checks |
| `Geometry.RandInt` | snakeTest.py:213 | the value drawn by randint(a, b) lies in [a, b] |
| `Geometry.RandIntCovers` | snakeTest.py:213 | every value of [a, b] is drawn by some draw |
| `Steering.Turn` | snakeTest.py:286-293 | a key is taken exactly when it is not the opposite of the current heading; otherwise the heading is unchanged |
| `Steering.TurnAll` | snakeTest.py:281-293 | definition: the keys of a tick folded through `Turn` in arrival order; properties in `TurnAllSnoc` and `TurnAllChoosesRequest` |
| `Steering.TurnAllSnoc` | snakeTest.py:281-293 | the keys of a tick are applied one after another in arrival order |
| `Steering.TurnAllChoosesRequest` | snakeTest.py:281-293 | after a tick's keys the heading is the old heading or one of the keys |
| `Steering.SingleRequestNeverReverses` | snakeTest.py:286-293 | a single key never reverses the heading |
| `Steering.TwoRequestsCanReverse` | snakeTest.py:281-293 | heading right, the keys up then left in one tick end heading left |
| `SnakeBody.EatOrDrop` | snakeTest.py:78-84 | the apple is eaten exactly when the head equals it; then the body is unchanged; otherwise the result plus the old last cell is the old body |
| `SnakeBody.Moved` | snakeTest.py:86-97 | the length grows by one; every old cell moves to the next index unchanged; the new head is adjacent to the old head, and one step back against the heading from it is the old head |
| `SnakeBody.Collision` | snakeTest.py:99-106 | definition: the head's x is -1 or 32, or its y is -1 or 24 (lines that run on past the grid's corners), or the head equals a later cell; `Snake.Alive` is proved equal to it |
| `SnakeBody.Snake.constructor` | snakeTest.py:73-76 | the snake stores the dimensions, cells and heading it is given |
| `SnakeBody.Snake.EatApple` | snakeTest.py:78-84 | returns true exactly when the head is on the apple and then leaves the cells alone; otherwise deletes exactly the last cell |
| `SnakeBody.Snake.Move` | snakeTest.py:86-97 | the cells become the new head followed by all old cells; the new head is the old head one unit ahead in the heading |
| `SnakeBody.Snake.Alive` | snakeTest.py:99-106 | the scan finds a collision exactly when the head's x is -1 or the grid width, or its y is -1 or the grid height, or the head equals a later cell |
| `Game.RandomLocation` | snakeTest.py:212-213 | the apple location, a cell chosen by the two draws, is always on the grid |
| `Game.RandomLocationCovers` | snakeTest.py:212-213 | every grid cell can be the apple location, including one under the snake |
| `Game.InitialWorm` | snakeTest.py:322-327 | three cells with the head drawn from [5, 26] × [5, 18]; each cell is one step left of the previous one; all on the grid, pairwise distinct, contiguous, and not colliding |
| `Game.InitialWorld` | snakeTest.py:322-333 | definition: the opening worm heading right with a drawn apple; properties in `InitialWorm`, `InitialNeckBehind` and `ScoreCountsApples` |
| `Game.NewGame` | snakeTest.py:322-333 | start-up builds a fresh snake with the world dimensions, the opening worm heading right, and a random apple |
| `Game.Step` | snakeTest.py:281-301 | the apple is eaten exactly when the head is on it; the length grows by one exactly then; the heading is that of the tick's keys; the new head is the old head one unit ahead; the rest of the body is the old body without its tail unless eaten; the apple is respawned only on eat; the alive result is the collision predicate |
| `Game.Run` | snakeTest.py:279-301 | definition: `Step` applied to each tick in turn, never stopped by the scan's result; properties in `RunLength`, `RunKeepsContiguous` and `RunKeepsAppleInGrid` |
| `Game.Score` | snakeTest.py:312 | definition: the body length minus 3; properties in `ScoreCountsApples` |
| `Game.HandleEvents` | snakeTest.py:281-293 | the heading after the key loop is the tick's keys applied in order |
| `Game.Tick` | snakeTest.py:281-301 | one pass of the loop body on the snake object ends in the world `Step` gives |
| `Game.RunGame` | snakeTest.py:279-301 | the main loop over a finite run of ticks ends in the world `Run` gives |
| `GameProperties.RunLength` | snakeTest.py:297-301 | over a run the body grows by exactly the number of apples eaten |
| `GameProperties.ScoreCountsApples` | snakeTest.py:312 | from the opening worm the score equals the number of apples eaten, so it is at least 0 and the body has at least 3 cells |
| `GameProperties.StepKeepsContiguous` | snakeTest.py:83-97 | a tick keeps each cell of the body adjacent to the next |
| `GameProperties.RunKeepsContiguous` | snakeTest.py:297-301 | a run keeps each cell of the body adjacent to the next |
| `GameProperties.RunKeepsAppleInGrid` | snakeTest.py:299-300 | the apple stays on the grid over any run |
| `GameProperties.InitialNeckBehind` | snakeTest.py:325-329 | the opening worm's second cell is one step behind the head, against the heading right |
| `GameProperties.OneKeyNeverTurnsBack` | snakeTest.py:286-301 | with at most one key in a tick, the new head is never the old neck |
| `GameProperties.TwoKeysTurnBackIntoNeck` | snakeTest.py:281-301 | heading right, up then left within one tick moves the head onto the neck, and the scan reports a collision |
| `GameProperties.ReversalRejected` | snakeTest.py:290-293 | heading up, a down key leaves the heading up |
| `GameProperties.EatenTickAfterArrival` | snakeTest.py:297-301 | head (5,5) heading right with the apple at (6,5): no eating on the first tick, eating and length 4 on the second, and then a respawned apple |
| `GameProperties.ArrivesOnApple` | snakeTest.py:297-301 | the first tick of that scenario moves onto the apple without eating |
| `GameProperties.EatsOnNextTick` | snakeTest.py:297-301 | the second tick of that scenario eats and grows to four cells |
| `GameProperties.LeftWallScenario` | snakeTest.py:99-102 | head (0,5) heading left moves to (-1,5), and the next scan reports a collision |
| `GameProperties.PastTheWallUnflagged` | snakeTest.py:99-102 | one cell past the right edge is flagged; two cells past the edge is off the grid and not flagged |
| `GameProperties.StepLeavesGridOntoWall` | snakeTest.py:101 | after a tick from a head on the grid, the head is on the grid or on one of the lines the boundary-line test checks |
| `GameProperties.BoundaryLinePastCorner` | snakeTest.py:101 | walking down the line x = -1 past the corner, the head reaches (-1, 25), off the grid and not next to it, and the scan still flags it |

## Left out

- Rendering is left out because it consists only of graphics calls: the start and game-over screens, the score text, and the drawing of the grid, worm and apple (`drawPressKeyMsg`, `showStartScreen`, `showGameOverScreen`, `drawScore`, `drawWorm`, `drawApple`, `drawGrid`).
- Event polling and key codes are not modelled. Each tick's input is the sequence of direction keys pressed, with WASD and arrow keys folded together. `checkForKeyPress` belongs to the screens above.
- The quit event and the escape key call `terminate`, which ends the process. Process exit is not modelled.
- The frame clock (`FPSCLOCK.tick`, `pygame.time.wait`) is left out. It only controls timing.
- The main loop `while True` is modelled over a finite sequence of ticks. Because `alive` never signals death, `runGame` never returns, so the restart loop in `main` and its game-over screen are not modelled.
- `SnakeGame`, the commented-out AI key monitor and the `snake_ai` import are dead code. The `snake_ai` module is not part of this model.
- `Game.Step`, `Game.Tick` and `Game.RunGame` require the head to be readable again after a tail is dropped. That means a body of at least two cells, or one cell on the apple. Otherwise the source fails with an index error. The opening worm and every later state satisfy this.
- `SnakeBody.Snake.Alive` returns a boolean, while the source returns nothing on every path. The boolean is what the scan finds, and the game loop drops it in both.
- `SnakeBody.Snake.constructor` has no default for the heading, while the source defaults it to RIGHT. The only caller passes RIGHT, so no behaviour is lost.
