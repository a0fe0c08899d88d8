/** The game loop: the apple spawner, the opening worm and one tick of the
    main loop (keys, alive scan, eat or drop the tail with a respawn on eat,
    move), both as a value-level step function and as the loop over a
    snake object that it specifies. */
module Game {
  import opened Geometry
  import opened Steering
  import opened SnakeBody

  /** What one tick consumes from the outside world: the direction keys
      pressed since the last tick, in order, and the two random draws the
      apple respawn uses if the apple is eaten during this tick. */
  datatype TickInput = TickInput(keys: seq<Direction>, drawX: nat, drawY: nat)

  /** The state the main loop carries from tick to tick. */
  datatype World = World(cells: seq<Cell>, direction: Direction, apple: Cell)

  /** One tick: the next world, the (discarded) result of the alive scan,
      and whether the apple was eaten. */
  datatype TickResult = TickResult(world: World, gameOver: bool, ate: bool)

  /** A cell of the grid chosen by the two draws; it does not look at the snake. */
  function RandomLocation(drawX: nat, drawY: nat): (c: Cell)
    ensures InGrid(c)
  {
    Cell(RandInt(0, CellWidth - 1, drawX), RandInt(0, CellHeight - 1, drawY))
  }

  /** Every cell of the grid can be chosen, including one under the snake. */
  lemma RandomLocationCovers(c: Cell)
    requires InGrid(c)
    ensures RandomLocation(c.x, c.y) == c
  {
    RandIntCovers(0, CellWidth - 1, c.x);
    RandIntCovers(0, CellHeight - 1, c.y);
  }

  /** The opening worm: three cells in a row, head on the right, with the
      head drawn from [5, CellWidth - 6] x [5, CellHeight - 6]. */
  function InitialWorm(drawX: nat, drawY: nat): (cells: seq<Cell>)
    ensures |cells| == 3
    ensures 5 <= cells[0].x <= CellWidth - 6 && 5 <= cells[0].y <= CellHeight - 6
    ensures forall i :: 0 <= i < 2 ==> cells[i + 1] == NextHead(cells[i], Left)
    ensures forall c :: c in cells ==> InGrid(c)
    ensures cells[0] != cells[1] && cells[0] != cells[2] && cells[1] != cells[2]
    ensures Contiguous(cells)
    ensures !Collision(cells)
  {
    var startX := RandInt(5, CellWidth - 6, drawX);
    var startY := RandInt(5, CellHeight - 6, drawY);
    [Cell(startX, startY), Cell(startX - 1, startY), Cell(startX - 2, startY)]
  }

  /** The world right after start-up: the opening worm heading right and a
      first apple. */
  function InitialWorld(startX: nat, startY: nat, appleX: nat, appleY: nat): World {
    World(InitialWorm(startX, startY), Right, RandomLocation(appleX, appleY))
  }

  /** Start-up: build the worm and the snake, then spawn the first apple. */
  method NewGame(startX: nat, startY: nat, appleX: nat, appleY: nat) returns (snake: Snake, apple: Cell)
    ensures fresh(snake)
    ensures snake.dim == (WorldWidth, WorldHeight)
    ensures World(snake.cells, snake.direction, apple) == InitialWorld(startX, startY, appleX, appleY)
  {
    var worm := InitialWorm(startX, startY);
    snake := new Snake((WorldWidth, WorldHeight), worm, Right);
    apple := RandomLocation(appleX, appleY);
  }

  /** The score shown on screen. */
  function Score(cells: seq<Cell>): int {
    |cells| - 3
  }

  /** A tick can run: the alive scan and eating read the head, and after a
      tail is dropped moving reads the head again, so a body of one cell
      must be on the apple. */
  predicate TickDefined(w: World) {
    |w.cells| > 0 && (w.cells[0] == w.apple || |w.cells| > 1)
  }

  /** The neck sits one step behind the head, against the heading. */
  predicate NeckBehind(w: World) {
    |w.cells| >= 2 && w.cells[1] == NextHead(w.cells[0], Opposite(w.direction))
  }

  /** One tick of the main loop, in its order: keys, alive scan, eat or
      drop the tail (respawning the apple on eat), move. */
  function Step(w: World, input: TickInput): (r: TickResult)
    requires TickDefined(w)
    ensures r.ate <==> w.cells[0] == w.apple
    ensures |r.world.cells| == |w.cells| + (if r.ate then 1 else 0)
    ensures r.world.direction == TurnAll(w.direction, input.keys)
    ensures r.world.cells[0] == NextHead(w.cells[0], r.world.direction)
    ensures r.world.cells[1..] == w.cells[..|r.world.cells| - 1]
    ensures r.world.apple == if r.ate then RandomLocation(input.drawX, input.drawY) else w.apple
    ensures r.gameOver == Collision(w.cells)
    ensures TickDefined(r.world) && NeckBehind(r.world)
  {
    var direction := TurnAll(w.direction, input.keys);
    var gameOver := Collision(w.cells);
    var meal := EatOrDrop(w.cells, w.apple);
    var apple := if meal.ate then RandomLocation(input.drawX, input.drawY) else w.apple;
    var moved := Moved(meal.body, direction);
    assert moved[1..] == meal.body;
    TickResult(World(moved, direction, apple), gameOver, meal.ate)
  }

  /** A run of ticks; the alive scan's result never stops it. */
  function Run(w: World, inputs: seq<TickInput>): World
    requires TickDefined(w)
    decreases |inputs|
  {
    if inputs == [] then w
    else Run(Step(w, inputs[0]).world, inputs[1..])
  }

  /** The number of apples eaten during a run. */
  function Eaten(w: World, inputs: seq<TickInput>): nat
    requires TickDefined(w)
    decreases |inputs|
  {
    if inputs == [] then 0
    else
      var r := Step(w, inputs[0]);
      (if r.ate then 1 else 0) + Eaten(r.world, inputs[1..])
  }

  /** The key loop of one tick: each key is tested against the heading as
      earlier keys left it. */
  method HandleEvents(snake: Snake, keys: seq<Direction>)
    modifies snake`direction
    ensures snake.direction == TurnAll(old(snake.direction), keys)
  {
    ghost var start := snake.direction;
    for i := 0 to |keys|
      invariant snake.direction == TurnAll(start, keys[..i])
    {
      var key := keys[i];
      if key == Left && snake.direction != Right {
        snake.direction := Left;
      } else if key == Right && snake.direction != Left {
        snake.direction := Right;
      } else if key == Up && snake.direction != Down {
        snake.direction := Up;
      } else if key == Down && snake.direction != Up {
        snake.direction := Down;
      }
      TurnAllSnoc(start, keys[..i], key);
      assert keys[..i + 1] == keys[..i] + [key];
    }
    assert keys[..|keys|] == keys;
  }

  /** The body of the main loop: keys, alive scan (its result is dropped),
      eat or drop the tail with a respawn on eat, move. */
  method Tick(snake: Snake, apple0: Cell, input: TickInput) returns (apple: Cell)
    requires TickDefined(World(snake.cells, snake.direction, apple0))
    modifies snake`cells, snake`direction
    ensures World(snake.cells, snake.direction, apple)
         == Step(World(old(snake.cells), old(snake.direction), apple0), input).world
  {
    ghost var next := Step(World(snake.cells, snake.direction, apple0), input).world;
    HandleEvents(snake, input.keys);
    var gameOver := snake.Alive();
    apple := apple0;
    var ate := snake.EatApple(apple);
    if ate {
      apple := RandomLocation(input.drawX, input.drawY);
    }
    snake.Move();
    assert snake.cells == next.cells;
  }

  /** The main loop over a finite run of ticks; it ends in the world
      `Run` describes. */
  method RunGame(snake: Snake, apple0: Cell, ticks: seq<TickInput>) returns (apple: Cell)
    requires TickDefined(World(snake.cells, snake.direction, apple0))
    modifies snake`cells, snake`direction
    ensures World(snake.cells, snake.direction, apple)
         == Run(World(old(snake.cells), old(snake.direction), apple0), ticks)
  {
    ghost var w0 := World(snake.cells, snake.direction, apple0);
    apple := apple0;
    var i := 0;
    while i < |ticks|
      invariant 0 <= i <= |ticks|
      invariant TickDefined(World(snake.cells, snake.direction, apple))
      invariant Run(w0, ticks) == Run(World(snake.cells, snake.direction, apple), ticks[i..])
    {
      apple := Tick(snake, apple, ticks[i]);
      assert ticks[i..][0] == ticks[i] && ticks[i..][1..] == ticks[i + 1..];
      i := i + 1;
    }
  }
}
