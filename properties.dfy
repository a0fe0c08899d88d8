/** What the game promises over whole runs: length bookkeeping and the score,
    the shape of the body, the apple staying on the grid, the turn rule seen
    from the body, and concrete situations worked through by hand. */
module GameProperties {
  import opened Geometry
  import opened Steering
  import opened SnakeBody
  import opened Game

  /** Every tick grows the body by one exactly when it eats, so a run grows
      it by the number of apples eaten. */
  lemma {:induction false} RunLength(w: World, inputs: seq<TickInput>)
    requires TickDefined(w)
    ensures |Run(w, inputs).cells| == |w.cells| + Eaten(w, inputs)
    decreases |inputs|
  {
    if inputs != [] {
      RunLength(Step(w, inputs[0]).world, inputs[1..]);
    }
  }

  /** From the opening worm the score is the number of apples eaten, so it
      is never negative and the body never has fewer than three cells. */
  lemma ScoreCountsApples(startX: nat, startY: nat, appleX: nat, appleY: nat, inputs: seq<TickInput>)
    ensures TickDefined(InitialWorld(startX, startY, appleX, appleY))
    ensures Score(Run(InitialWorld(startX, startY, appleX, appleY), inputs).cells)
         == Eaten(InitialWorld(startX, startY, appleX, appleY), inputs)
    ensures Score(Run(InitialWorld(startX, startY, appleX, appleY), inputs).cells) >= 0
    ensures |Run(InitialWorld(startX, startY, appleX, appleY), inputs).cells| >= 3
  {
    RunLength(InitialWorld(startX, startY, appleX, appleY), inputs);
  }

  /** A tick keeps the body a chain of neighbouring cells. */
  lemma StepKeepsContiguous(w: World, input: TickInput)
    requires TickDefined(w) && Contiguous(w.cells)
    ensures Contiguous(Step(w, input).world.cells)
  {
    var cells := Step(w, input).world.cells;
    forall i | 0 <= i < |cells| - 1
      ensures Adjacent(cells[i], cells[i + 1])
    {
      if i == 0 {
        assert cells[1] == cells[1..][0] == w.cells[0];
      } else {
        assert cells[i] == cells[1..][i - 1] == w.cells[i - 1];
        assert cells[i + 1] == cells[1..][i] == w.cells[i];
      }
    }
  }

  /** A whole run keeps the body a chain of neighbouring cells. */
  lemma {:induction false} RunKeepsContiguous(w: World, inputs: seq<TickInput>)
    requires TickDefined(w) && Contiguous(w.cells)
    ensures Contiguous(Run(w, inputs).cells)
    decreases |inputs|
  {
    if inputs != [] {
      StepKeepsContiguous(w, inputs[0]);
      RunKeepsContiguous(Step(w, inputs[0]).world, inputs[1..]);
    }
  }

  /** The apple is always on the grid: the first one and every respawn. */
  lemma {:induction false} RunKeepsAppleInGrid(w: World, inputs: seq<TickInput>)
    requires TickDefined(w) && InGrid(w.apple)
    ensures InGrid(Run(w, inputs).apple)
    decreases |inputs|
  {
    if inputs != [] {
      RunKeepsAppleInGrid(Step(w, inputs[0]).world, inputs[1..]);
    }
  }

  /** The opening worm's neck is behind its head, against its heading. */
  lemma InitialNeckBehind(startX: nat, startY: nat, appleX: nat, appleY: nat)
    ensures NeckBehind(InitialWorld(startX, startY, appleX, appleY))
  {
  }

  /** With at most one key in a tick, the head never steps back onto the
      neck: only a reversal would, and a single key cannot reverse. */
  lemma OneKeyNeverTurnsBack(w: World, input: TickInput)
    requires TickDefined(w) && NeckBehind(w) && |input.keys| <= 1
    ensures Step(w, input).world.cells[0] != w.cells[1]
  {
    var d := Step(w, input).world.direction;
    if input.keys == [] {
      assert d == w.direction;
    } else {
      assert input.keys == [input.keys[0]];
      SingleRequestNeverReverses(w.direction, input.keys[0]);
    }
    if Step(w, input).world.cells[0] == w.cells[1] {
      NextHeadInjective(w.cells[0], d, Opposite(w.direction));
      assert false;
    }
  }

  /** Two keys in one tick reverse the snake into its own neck: heading
      right, `up` then `left` brings the head back onto the old neck, which
      the next alive scan reports as a collision. */
  lemma TwoKeysTurnBackIntoNeck()
    ensures var w := World([Cell(5, 5), Cell(4, 5), Cell(3, 5)], Right, Cell(20, 20));
            var r := Step(w, TickInput([Up, Left], 0, 0));
            r.world.cells == [Cell(4, 5), Cell(5, 5), Cell(4, 5)] && Collision(r.world.cells)
  {
    TwoRequestsCanReverse();
    var w := World([Cell(5, 5), Cell(4, 5), Cell(3, 5)], Right, Cell(20, 20));
    var meal := EatOrDrop(w.cells, w.apple);
    assert meal == Meal([Cell(5, 5), Cell(4, 5)], false);
    var moved := Moved(meal.body, Left);
    assert moved == [Cell(4, 5), Cell(5, 5), Cell(4, 5)];
    var r := Step(w, TickInput([Up, Left], 0, 0));
    assert r.world.cells == moved;
    assert moved[1..] == [Cell(5, 5), Cell(4, 5)];
    assert moved[0] in moved[1..];
  }

  /** A reversal request is ignored: heading up, `down` leaves it up. */
  lemma ReversalRejected(w: World, input: TickInput)
    requires TickDefined(w) && w.direction == Up && input.keys == [Down]
    ensures Step(w, input).world.direction == Up
  {
    assert input.keys[0] == Down && input.keys[1..] == [];
    assert TurnAll(Up, input.keys) == TurnAll(Turn(Up, Down), []) == Up;
  }

  /** The apple is eaten one tick after the head reaches it: the eat test
      reads the head before the move. Head (5, 5) heading right with the
      apple at (6, 5): the first tick moves onto the apple without eating,
      the second eats it and grows the body to four cells. */
  lemma EatenTickAfterArrival(input: TickInput)
    requires input.keys == []
    ensures var w := World([Cell(5, 5), Cell(4, 5), Cell(3, 5)], Right, Cell(6, 5));
            var first := Step(w, input);
            var second := Step(first.world, input);
            !first.ate && first.world.cells == [Cell(6, 5), Cell(5, 5), Cell(4, 5)] &&
            second.ate && second.world.cells == [Cell(7, 5), Cell(6, 5), Cell(5, 5), Cell(4, 5)] &&
            second.world.apple == RandomLocation(input.drawX, input.drawY)
  {
    ArrivesOnApple(input);
    EatsOnNextTick(input);
  }

  lemma ArrivesOnApple(input: TickInput)
    requires input.keys == []
    ensures var r := Step(World([Cell(5, 5), Cell(4, 5), Cell(3, 5)], Right, Cell(6, 5)), input);
            !r.ate && r.world == World([Cell(6, 5), Cell(5, 5), Cell(4, 5)], Right, Cell(6, 5))
  {
    assert EatOrDrop([Cell(5, 5), Cell(4, 5), Cell(3, 5)], Cell(6, 5)) == Meal([Cell(5, 5), Cell(4, 5)], false);
    assert Moved([Cell(5, 5), Cell(4, 5)], Right) == [Cell(6, 5), Cell(5, 5), Cell(4, 5)];
  }

  lemma EatsOnNextTick(input: TickInput)
    requires input.keys == []
    ensures var r := Step(World([Cell(6, 5), Cell(5, 5), Cell(4, 5)], Right, Cell(6, 5)), input);
            r.ate && r.world.cells == [Cell(7, 5), Cell(6, 5), Cell(5, 5), Cell(4, 5)] &&
            r.world.apple == RandomLocation(input.drawX, input.drawY)
  {
    assert Moved([Cell(6, 5), Cell(5, 5), Cell(4, 5)], Right) == [Cell(7, 5), Cell(6, 5), Cell(5, 5), Cell(4, 5)];
  }

  /** Head (0, 5) heading left: the move puts the head on (-1, 5), and the
      next alive scan reports a collision, yet the run goes on. */
  lemma LeftWallScenario(input: TickInput)
    requires input.keys == []
    ensures var w := World([Cell(0, 5), Cell(1, 5), Cell(2, 5)], Left, Cell(20, 20));
            var r := Step(w, input);
            r.world.cells[0] == Cell(-1, 5) && Step(r.world, input).gameOver
  {
  }

  /** The boundary-line test looks only at x = -1, x = CellWidth, y = -1 and
      y = CellHeight: two cells past the right edge going straight, the head
      is off the grid and the scan finds nothing. */
  lemma PastTheWallUnflagged(input: TickInput)
    requires input.keys == []
    ensures var w := World([Cell(31, 5), Cell(30, 5), Cell(29, 5)], Right, Cell(0, 0));
            var once := Step(w, input).world;
            var twice := Step(once, input).world;
            Collision(once.cells) && !InGrid(twice.cells[0]) && !Collision(twice.cells)
  {
    var w := World([Cell(31, 5), Cell(30, 5), Cell(29, 5)], Right, Cell(0, 0));
    var once := Step(w, input).world;
    assert once.cells[1..] == [Cell(31, 5), Cell(30, 5)];
    var twice := Step(once, input).world;
    assert twice.cells[1..] == [Cell(32, 5), Cell(31, 5)];
    assert twice.cells[0] == Cell(33, 5);
  }

  /** A head that was on the grid is, after any tick, on the grid or on one
      of the lines the boundary-line test checks. */
  lemma StepLeavesGridOntoWall(w: World, input: TickInput)
    requires TickDefined(w) && InGrid(w.cells[0])
    ensures InGrid(Step(w, input).world.cells[0]) || HitsWall(Step(w, input).world.cells[0])
  {
    LeavingGridHitsWall(w.cells[0], Step(w, input).world.direction);
  }

  /** The boundary lines run on past the grid's corners: walking down the
      line x = -1 from (-1, 24), the head reaches (-1, 25), which is neither
      on the grid nor next to it, and the scan still flags it. */
  lemma BoundaryLinePastCorner(input: TickInput)
    requires input.keys == []
    ensures var w := World([Cell(-1, 24), Cell(-1, 23), Cell(-1, 22)], Down, Cell(0, 0));
            var r := Step(w, input).world;
            r.cells[0] == Cell(-1, 25) && !InGrid(r.cells[0]) && Collision(r.cells)
  {
  }
}
