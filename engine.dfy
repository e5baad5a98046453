/**
 * The value-level behaviour of one logic tick of the Snake game: collision, growth, sliding,
 * reset and food placement, stated on a snapshot of the `Game` fields.
 */
module Engine {
  import opened Grid

  /** The fields of `Game` that the game logic reads and writes. */
  datatype Snapshot = Snapshot(snake: seq<Cell>, food: Cell, direction: int, score: int, running: bool)

  /** The body `resetGame` puts on the board: head at (10, 10), heading right. */
  const InitialSnake: seq<Cell> := [Cell(10, 10), Cell(10, 9), Cell(10, 8)]

  /** What `checkCollision` reports: the cell is a body segment (the tail included) or lies outside 1..20. */
  predicate Blocked(body: seq<Cell>, c: Cell)
    ensures InFoodArea(c) ==> (Blocked(body, c) <==> c in body)
    ensures c in body ==> Blocked(body, c)
  {
    c in body || !InBounds(c)
  }

  // ---------------------------------------------------------------------------------------------
  // Food placement: rejection sampling over a supplied stream of random draws.

  /** Some draw of the stream is accepted by `spawnFood`, so its retry loop ends. */
  predicate HasFreeDraw(body: seq<Cell>, draws: seq<Cell>)
  {
    exists i :: 0 <= i < |draws| && !Blocked(body, draws[i])
  }

  /**
   * A stream the food generator can produce (every draw in rows and columns 1..18) and on which
   * the retry loop ends.
   */
  predicate CanSpawn(body: seq<Cell>, draws: seq<Cell>)
  {
    (forall i :: 0 <= i < |draws| ==> InFoodArea(draws[i])) && HasFreeDraw(body, draws)
  }

  /** The index of the draw the retry loop stops at: the first one that does not collide. */
  function FirstFree(body: seq<Cell>, draws: seq<Cell>): (k: nat)
    requires HasFreeDraw(body, draws)
    ensures k < |draws| && !Blocked(body, draws[k])
    ensures forall j :: 0 <= j < k ==> Blocked(body, draws[j])
    decreases |draws|
  {
    if !Blocked(body, draws[0]) then 0
    else
      var i :| 0 <= i < |draws| && !Blocked(body, draws[i]);
      assert 0 <= i - 1 < |draws[1..]| && draws[1..][i - 1] == draws[i];
      1 + FirstFree(body, draws[1..])
  }

  /** The food cell `spawnFood` settles on: off the body, inside 1..18, and one of the draws. */
  function SpawnedFood(body: seq<Cell>, draws: seq<Cell>): (f: Cell)
    requires CanSpawn(body, draws)
    ensures f !in body && InFoodArea(f) && InBounds(f)
    ensures f in draws
  {
    draws[FirstFree(body, draws)]
  }

  // ---------------------------------------------------------------------------------------------
  // One logic tick.

  /** The three ways `update` can end. */
  datatype Outcome = Crash | Eat | Slide

  /** The candidate head: one step from the front segment in the current direction. */
  function NextHead(s: Snapshot): Cell
    requires |s.snake| > 0
  {
    Offset(s.snake[0], s.direction)
  }

  /** Collision is tested against the body before it moves, so the current tail cell counts. */
  function Classify(s: Snapshot): (r: Outcome)
    requires |s.snake| > 0
    ensures r == Crash <==> NextHead(s) in s.snake || !InBounds(NextHead(s))
    ensures r == Eat ==> NextHead(s) == s.food
    ensures r == Slide ==> NextHead(s) != s.food
    ensures NextHead(s) == s.snake[|s.snake| - 1] ==> r == Crash
    ensures !IsDirection(s.direction) ==> r == Crash
  {
    var h := NextHead(s);
    if Blocked(s.snake, h) then Crash
    else if h == s.food then Eat
    else Slide
  }

  /** The body a tick leaves behind, before any food is drawn. */
  function Grown(s: Snapshot): seq<Cell>
    requires |s.snake| > 0
  {
    [NextHead(s)] + s.snake
  }

  /** The random stream suffices for the food the tick draws (a slide draws none). */
  predicate TickDraws(s: Snapshot, draws: seq<Cell>)
    requires |s.snake| > 0
  {
    match Classify(s)
    case Crash => CanSpawn(InitialSnake, draws)
    case Eat => CanSpawn(Grown(s), draws)
    case Slide => true
  }

  /** `resetGame`: the initial body, food drawn off it, score zero; direction and running untouched. */
  function ResetState(s: Snapshot, draws: seq<Cell>): (t: Snapshot)
    requires CanSpawn(InitialSnake, draws)
    ensures t.snake == InitialSnake && t.score == 0
    ensures t.food !in t.snake && InFoodArea(t.food) && t.food in draws
    ensures t.direction == s.direction && t.running == s.running
  {
    s.(snake := InitialSnake, food := SpawnedFood(InitialSnake, draws), score := 0)
  }

  /** `update`: reset on collision, grow and redraw food on eating, otherwise slide forward. */
  function Tick(s: Snapshot, draws: seq<Cell>): (t: Snapshot)
    requires |s.snake| > 0 && TickDraws(s, draws)
    ensures t.direction == s.direction && t.running == s.running
  {
    match Classify(s)
    case Crash => ResetState(s, draws)
    case Eat => s.(snake := Grown(s), food := SpawnedFood(Grown(s), draws), score := s.score + 1)
    case Slide => s.(snake := [NextHead(s)] + s.snake[..|s.snake| - 1])
  }

  // ---------------------------------------------------------------------------------------------
  // The game invariant.

  ghost predicate Distinct(body: seq<Cell>)
  {
    forall i, j :: 0 <= i < j < |body| ==> body[i] != body[j]
  }

  /** Consecutive segments share a side. */
  ghost predicate Connected(body: seq<Cell>)
  {
    forall i :: 0 <= i < |body| - 1 ==> Adjacent(body[i], body[i + 1])
  }

  ghost predicate AllInBounds(body: seq<Cell>)
  {
    forall i :: 0 <= i < |body| ==> InBounds(body[i])
  }

  /**
   * What holds of every state from the first reset on: at least three distinct, connected segments
   * inside the band, food off the body in 1..18, a legal direction, and one point per segment
   * beyond the initial three.
   */
  ghost predicate Invariant(s: Snapshot)
  {
    && 3 <= |s.snake|
    && Distinct(s.snake)
    && Connected(s.snake)
    && AllInBounds(s.snake)
    && s.food !in s.snake
    && InFoodArea(s.food)
    && IsDirection(s.direction)
    && s.score == |s.snake| - 3
  }

  /** A reset establishes the invariant whatever the state it starts from, given a legal direction. */
  lemma ResetEstablishesInvariant(s: Snapshot, draws: seq<Cell>)
    requires IsDirection(s.direction) && CanSpawn(InitialSnake, draws)
    ensures Invariant(ResetState(s, draws))
  {
  }

  /** Every tick keeps the invariant. */
  lemma TickPreservesInvariant(s: Snapshot, draws: seq<Cell>)
    requires Invariant(s) && TickDraws(s, draws)
    ensures Invariant(Tick(s, draws))
  {
  }

  /** The length and score change of each outcome. */
  lemma TickDeltas(s: Snapshot, draws: seq<Cell>)
    requires |s.snake| > 0 && TickDraws(s, draws)
    ensures Classify(s) == Crash ==> Tick(s, draws).snake == InitialSnake && Tick(s, draws).score == 0
    ensures Classify(s) == Eat ==> |Tick(s, draws).snake| == |s.snake| + 1 && Tick(s, draws).score == s.score + 1
    ensures Classify(s) == Slide ==> |Tick(s, draws).snake| == |s.snake| && Tick(s, draws).score == s.score
    ensures Classify(s) == Slide ==> Tick(s, draws).food == s.food
  {
  }

  /**
   * A move that survives puts the new head one step from the old one, in the current direction,
   * in front of the old body (whole on eating, without its last segment on sliding).
   */
  lemma TickHead(s: Snapshot, draws: seq<Cell>)
    requires Invariant(s) && TickDraws(s, draws) && Classify(s) != Crash
    ensures var t := Tick(s, draws);
      && |t.snake| > 0
      && Adjacent(s.snake[0], t.snake[0])
      && Heading(s.snake[0], t.snake[0]) == s.direction
      && t.snake[1..] == (if Classify(s) == Eat then s.snake else s.snake[..|s.snake| - 1])
  {
  }

  /** A reset forgets the body, the food and the score it started from. */
  lemma ResetForgetsPast(s1: Snapshot, s2: Snapshot, draws: seq<Cell>)
    requires CanSpawn(InitialSnake, draws)
    requires s1.direction == s2.direction && s1.running == s2.running
    ensures ResetState(s1, draws) == ResetState(s2, draws)
  {
  }

  /** Two resets in a row amount to the second one alone. */
  lemma ResetTwice(s: Snapshot, draws1: seq<Cell>, draws2: seq<Cell>)
    requires CanSpawn(InitialSnake, draws1) && CanSpawn(InitialSnake, draws2)
    ensures ResetState(ResetState(s, draws1), draws2) == ResetState(s, draws2)
  {
  }

  // ---------------------------------------------------------------------------------------------
  // Worked scenarios.

  /** Heading right from the initial body onto food at (10, 11): the snake grows to four and scores. */
  lemma EatScenario(draws: seq<Cell>)
    requires CanSpawn([Cell(10, 11)] + InitialSnake, draws)
    ensures var s := Snapshot(InitialSnake, Cell(10, 11), Right, 0, true);
      && Classify(s) == Eat
      && Tick(s, draws).snake == [Cell(10, 11), Cell(10, 10), Cell(10, 9), Cell(10, 8)]
      && Tick(s, draws).score == 1
      && Tick(s, draws).food !in Tick(s, draws).snake
  {
  }

  /** Heading up from row 1 leaves the band at row 0: the game resets. */
  lemma WallScenario(draws: seq<Cell>)
    requires CanSpawn(InitialSnake, draws)
    ensures var s := Snapshot([Cell(1, 5), Cell(2, 5), Cell(3, 5)], Cell(9, 9), Up, 0, true);
      && Classify(s) == Crash
      && Tick(s, draws).snake == InitialSnake
      && Tick(s, draws).score == 0
  {
  }

  /** A closed loop whose head moves up onto the tail at (4, 5): self collision, reset. */
  lemma SelfScenario(draws: seq<Cell>)
    requires CanSpawn(InitialSnake, draws)
    ensures var s := Snapshot([Cell(5, 5), Cell(5, 4), Cell(5, 3), Cell(4, 3), Cell(4, 4), Cell(4, 5)], Cell(9, 9), Up, 3, true);
      && Classify(s) == Crash
      && Tick(s, draws).snake == InitialSnake
      && Tick(s, draws).score == 0
  {
  }
}
