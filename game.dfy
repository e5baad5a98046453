/** The `Game` object: its fields and the methods that drive the game logic. */
module SnakeGame {
  import opened Grid
  import opened Engine
  import opened Input
  import opened Timing

  /**
   * `resetGame` keeps the heading. Heading left, the first step from the initial body lands on
   * (10, 9), its second segment, so the reset game crashes again. A pass that starts with Right
   * cannot turn it round, because Right is the reverse of Left.
   */
  lemma LeftResetRecrashes(s: Snapshot, draws: seq<Cell>, post: seq<Event>)
    requires s.direction == Left && CanSpawn(InitialSnake, draws)
    ensures Classify(ResetState(s, draws)) == Crash
    ensures PassDirection(Left, [KeyDown(ArrowRight)] + post) == Left
  {
    assert NextHead(ResetState(s, draws)) == InitialSnake[1];
    ReversalIgnored(Left, ArrowRight, post);
  }

  class Game {
    var isRunning: bool
    /** Head first, tail last. */
    var snake: seq<Cell>
    var food: Cell
    /** 0=Up, 1=Right, 2=Down, 3=Left. */
    var direction: int
    var score: int

    /** The fields as one value, the domain of the specification functions. */
    function State(): Snapshot
      reads this
    {
      Snapshot(snake, food, direction, score, isRunning)
    }

    ghost predicate Valid()
      reads this
    {
      Invariant(State())
    }

    /** Not running, heading right, no score; the body is still empty and the food at (0, 0). */
    constructor ()
      ensures State() == Snapshot([], Cell(0, 0), Right, 0, false)
    {
      isRunning := false;
      snake := [];
      food := Cell(0, 0);
      direction := Right;
      score := 0;
    }

    /**
     * The game-state part of `init`: when the graphics back end came up (`backendReady`) the game
     * is reset and starts running; otherwise nothing changes and `false` is returned.
     */
    method Init(backendReady: bool, draws: seq<Cell>) returns (ok: bool)
      requires backendReady ==> CanSpawn(InitialSnake, draws)
      modifies this
      ensures ok == backendReady
      ensures ok ==> State() == ResetState(old(State()), draws).(running := true)
      ensures !ok ==> State() == old(State())
      ensures ok && IsDirection(old(direction)) ==> Valid() && isRunning
    {
      if !backendReady {
        return false;
      }
      ResetGame(draws);
      isRunning := true;
      ok := true;
      if IsDirection(old(direction)) { ResetEstablishesInvariant(old(State()), draws); }
    }

    /** True iff the cell is a body segment (the tail included) or lies outside rows and columns 1..20. */
    function CheckCollision(row: int, col: int): (hit: bool)
      reads this
      ensures hit <==> Cell(row, col) in snake || !InBounds(Cell(row, col))
    {
      var collisionWithSnake := OnBody(snake, Cell(row, col));
      var collisionWithBorders := row < 1 || col < 1 || row > GridRows || col > GridCols;
      collisionWithSnake || collisionWithBorders
    }

    /** Draw until a cell off the body comes up, and put the food there. */
    method SpawnFood(draws: seq<Cell>)
      requires CanSpawn(snake, draws)
      modifies this`food
      ensures food == SpawnedFood(snake, draws)
      ensures food !in snake && InFoodArea(food)
    {
      ghost var stop := FirstFree(snake, draws);
      var k := 0;
      var row, col := draws[0].row, draws[0].col;
      while CheckCollision(row, col)
        invariant 0 <= k <= stop
        invariant Cell(row, col) == draws[k]
        decreases stop - k
      {
        k := k + 1;
        row, col := draws[k].row, draws[k].col;
      }
      food := Cell(row, col);
    }

    /** Back to the three-segment body, new food off it, score zero. */
    method ResetGame(draws: seq<Cell>)
      requires CanSpawn(InitialSnake, draws)
      modifies this
      ensures State() == ResetState(old(State()), draws)
    {
      snake := InitialSnake;
      SpawnFood(draws);
      score := 0;
    }

    /**
     * One polling pass over the queued `events`; `polled` is how many of them it takes off the
     * queue. The first key press of any kind closes the latch; a quit stops the pass at once.
     */
    method HandleEvents(events: seq<Event>) returns (polled: nat)
      requires IsDirection(direction)
      modifies this`direction, this`isRunning
      ensures polled == Polled(events)
      ensures direction == PassDirection(old(direction), events)
      ensures isRunning == (old(isRunning) && Quit !in events)
      ensures old(Valid()) ==> Valid()
    {
      var keyHandled := false;
      var i := 0;
      while i < |events|
        invariant 0 <= i <= |events|
        invariant Quit !in events[..i]
        invariant keyHandled <==> LatchedKey(events[..i]).Some?
        invariant direction == PassDirection(old(direction), events[..i])
        invariant IsDirection(direction) && isRunning == old(isRunning)
      {
        var event := events[i];
        LatchedKeySnoc(events[..i], event);
        assert events[..i + 1] == events[..i] + [event];
        i := i + 1;
        if event == Quit {
          isRunning := false;
          LatchedKeyAtQuit(events, i - 1);
          polled := i;
          return;
        }
        if event.KeyDown? && !keyHandled {
          var newDirection := Turn(direction, event.sym);
          if newDirection != (direction + 2) % 4 {
            direction := newDirection;
            keyHandled := true;
          }
        }
      }
      assert events[..|events|] == events;
      polled := i;
    }

    /** One logic tick: step the head, then reset, grow or slide. */
    method Update(draws: seq<Cell>)
      requires |snake| > 0 && TickDraws(State(), draws)
      modifies this
      ensures State() == Tick(old(State()), draws)
      ensures old(Valid()) ==> Valid()
    {
      ghost var s := State();
      var head := Offset(snake[0], direction);
      if CheckCollision(head.row, head.col) {
        ResetGame(draws);
        if Invariant(s) { TickPreservesInvariant(s, draws); }
        return;
      }
      snake := [head] + snake;
      if head == food {
        SpawnFood(draws);
        score := score + 1;
      } else {
        snake := snake[..|snake| - 1];
        assert snake == [head] + s.snake[..|s.snake| - 1];
      }
      if Invariant(s) { TickPreservesInvariant(s, draws); }
    }

    /**
     * One iteration of the loop in `run`: when a logic step is due, poll the input and then tick
     * (the tick runs even when the pass saw a quit); rendering has no effect on the game state.
     */
    method RunIteration(timer: FrameTimer, now: u32, events: seq<Event>, draws: seq<Cell>)
      returns (logicStep: bool, rendered: bool)
      requires Valid() && isRunning
      requires Elapsed(now, timer.lastLogicTime) as int >= LogicDelay ==>
        TickDraws(State().(direction := PassDirection(direction, events), running := Quit !in events), draws)
      modifies this, timer
      ensures logicStep <==> Elapsed(now, old(timer.lastLogicTime)) as int >= LogicDelay
      ensures rendered <==> Elapsed(now, old(timer.lastFrameTime)) as int >= FrameDelay
      ensures timer.lastLogicTime == if logicStep then Advance(old(timer.lastLogicTime), LogicDelay as nat)
                                    else old(timer.lastLogicTime)
      ensures timer.lastFrameTime == if rendered then now else old(timer.lastFrameTime)
      ensures logicStep ==> State() == Tick(old(State()).(direction := PassDirection(old(direction), events),
                                                         running := Quit !in events), draws)
      ensures !logicStep ==> State() == old(State())
      ensures Valid()
    {
      logicStep, rendered := timer.Poll(now);
      if logicStep {
        var _ := HandleEvents(events);
        Update(draws);
      }
    }
  }
}
