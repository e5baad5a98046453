# Snake game engine, modelled in Dafny

This project models the game-state engine of a single-player Snake game. The original is a C++
`Game` class. The board is a 20×20 grid of integer `(row, col)` cells. The snake is a vector of
cells, head first. One piece of food sits on the board. The direction is an integer code
0=Up, 1=Right, 2=Down, 3=Left. The score counts the food eaten since the last reset.

The project proves the following.

- **Collision.** `checkCollision` reports a cell as blocked iff it is a body segment or lies
  outside rows and columns 1..20 inclusive. The tail counts as a body segment.
- **Movement.** `update` steps the head one cell. If that cell is blocked, the game resets.
  If it holds the food, the snake grows by one, the score rises by one and new food is drawn.
  Otherwise the snake slides forward.
- **Reset and food.** A reset puts back the three-segment body `[(10,10),(10,9),(10,8)]`, sets
  the score to zero and draws food off that body. `spawnFood` is rejection sampling over rows and
  columns 1..18.
- **Input.** `handleEvents` polls the event queue. The first key press of any kind closes a
  per-pass latch. A reversal is never accepted. A quit stops the game and ends the pass at once.
- **Timing.** The main loop steps the logic every 100 ms. The logic anchor advances by exactly
  100, so the schedule does not drift. It renders every 16 ms (1000/60), and the frame anchor
  jumps to the current time.

Every state from the first reset on satisfies `Engine.Invariant`:

- at least three segments, pairwise distinct, each touching the next, all inside the band;
- food off the body and inside 1..18;
- a direction code in 0..3;
- a score equal to the length minus three.

`update` and `handleEvents` preserve it.

Files:

- `grid.dfy` (module `Grid`): grid constants, cells, the direction encoding, the one-step offset
  and the body scan.
- `engine.dfy` (module `Engine`): the tick, the reset and food placement as functions on a
  `Snapshot` of the fields. Holds the invariant and the lemmas about the tick.
- `input.dfy` (module `Input`): input events, the direction switch and the latch.
- `timing.dfy` (module `Timing`): 32-bit tick arithmetic and the two timing anchors of `run`.
- `game.dfy` (module `SnakeGame`): the `Game` class. Its methods update the fields in place and
  are proved against the functions of `Engine` and `Input`.

Inputs that the original takes from outside the program become parameters:

- **Random numbers.** Each `spawnFood` call gets a sequence `draws` of candidate cells. It must
  be a stream the generator can produce: every draw lies in rows and columns 1..18. It must
  also hold some cell off the body. The original loops forever otherwise, so this is an
  assumption about the random stream.
- **Clock.** The loop iteration gets `now`, the current SDL tick count, as a 32-bit unsigned
  value with explicit wrap-around.
- **Event queue.** The polling pass gets the queued events as a sequence.
- **Graphics back end.** Whether the SDL/TTF set-up succeeded is one boolean given to `Init`.

Facts about the code that the model keeps as written:

- The in-bounds band is rows and columns 1..20 inclusive.
- Food is drawn from rows and columns 1..18.
- Eating food at (10, 11) from the initial body gives `[(10,11),(10,10),(10,9),(10,8)]`,
  because the tail is kept.
- A head in row 1 heading up leaves the band, because row 0 is outside it.
- The latch closes on the first key press of any kind. A rejected reversal or a non-arrow key
  also uses up the pass.
- From the first reset on, the snake has at least three segments. Before `init` succeeds the body is empty.
- `resetGame` keeps the direction. After a crash while heading left, the first step from the
  initial body lands on (10, 9), which is part of the body. So the game resets on every tick
  until Up or Down is pressed; Right is rejected as a reversal.

## Model

| member | source | states |
|---|---|---|
| Grid.Opposite | src/Game.cpp:141 | `(d + 2) % 4` is a direction other than `d` and matches the table Up↔Down, Right↔Left |
| Grid.Offset | src/Game.cpp:150-157 | for a code in 0..3 the new head touches the old one and lies in direction `d` from it; any other code leaves the head where it is |
| Grid.OffsetOppositeUndoes | src/Game.cpp:150-157 | a step followed by a step in the opposite direction returns to the starting cell |
| Grid.OffsetReachesNeighbour | src/Game.cpp:150-157 | every neighbouring cell is the step in the direction that leads to it |
| Grid.OnBody | src/Game.cpp:93-95 | the `any_of` scan is true iff the cell is one of the body's segments |
| SnakeGame.Game.CheckCollision | src/Game.cpp:85-110 | true iff the cell is a body segment, the tail included, or has row or column below 1 or above 20; a read-only function of the fields |
| Engine.FirstFree | src/Game.cpp:73-77 | the retry loop stops at a draw that does not collide, and every earlier draw collides |
| Engine.SpawnedFood | src/Game.cpp:67-79 | the chosen food is one of the draws, off the body and inside rows and columns 1..18 |
| SnakeGame.Game.SpawnFood | src/Game.cpp:67-81 | the do-while loop sets `food` to the first non-colliding draw, off the current body and in 1..18, and changes nothing else |
| SnakeGame.Game.ResetGame | src/Game.cpp:58-65 | the snake becomes the initial three cells, food is drawn off that body and the score becomes 0; direction and running are untouched |
| Engine.ResetState | src/Game.cpp:58-63 | a reset yields the initial three-cell body and score 0, with food off that body, in 1..18 and taken from the draws; direction and running are kept |
| Engine.ResetEstablishesInvariant | src/Game.cpp:58-63 | from any state with a legal direction, a reset yields a state satisfying the game invariant |
| Engine.ResetForgetsPast | src/Game.cpp:58-63 | the state after a reset does not depend on the body, food or score before it |
| Engine.ResetTwice | src/Game.cpp:58-63 | two resets in a row are the same as the second one alone |
| Engine.Blocked | src/Game.cpp:85-110 | a body cell is always blocked; inside the food area a cell is blocked exactly when it is on the body |
| Engine.Classify | src/Game.cpp:159-171 | a crash happens exactly when the stepped head is on the body or outside the band; an eat means the head lands on the food, a slide that it does not; landing on the tail cell, or a direction code outside 0..3, is a crash |
| Engine.Tick | src/Game.cpp:149-172 | a tick never changes the direction or the running flag |
| Engine.TickPreservesInvariant | src/Game.cpp:149-172 | every tick keeps the snake distinct, connected, in bounds and at least three long, keeps food off the body and in 1..18, and keeps score = length − 3 |
| Engine.TickDeltas | src/Game.cpp:159-171 | a crash resets to the initial body and score 0; eating adds exactly one segment and one point; sliding keeps length, score and food |
| Engine.TickHead | src/Game.cpp:150-171 | after a surviving move the new head touches the old head in the current direction, followed by the whole old body (eating) or all of it but the last segment (sliding) |
| Engine.EatScenario | src/Game.cpp:163-168 | heading right from the initial body onto food at (10, 11) gives `[(10,11),(10,10),(10,9),(10,8)]`, score 1, food off the new body |
| Engine.WallScenario | src/Game.cpp:98-99 | heading up from row 1 leaves the band and resets the body and score |
| Engine.SelfScenario | src/Game.cpp:93-95 | a closed loop whose head moves up onto its tail at (4, 5) collides and resets |
| SnakeGame.LeftResetRecrashes | src/Game.cpp:58-63 | `resetGame` keeps a left heading, so the first tick after the reset hits the body at (10, 9) and resets again, and pressing Right leaves the heading on Left |
| SnakeGame.Game.Update | src/Game.cpp:149-172 | the in-place insert, `pop_back` and score change leave the fields equal to `Engine.Tick` of the old fields, and the game invariant is kept |
| SnakeGame.Game.constructor | src/Game.cpp:6 | a new game is not running, heads right (1) and has score 0, an empty body and food at (0, 0) |
| SnakeGame.Game.Init | src/Game.cpp:19-56 | on back-end failure nothing changes and false is returned; on success the game is reset, `isRunning` becomes true and the invariant holds |
| Input.KeyCode | src/Game.cpp:124-136 | each arrow key names a direction code in 0..3 |
| Input.Turn | src/Game.cpp:123-139 | an arrow key sets its own direction unless that is the reverse of the current one, in which case nothing changes; other keys change nothing; the result is never the reverse |
| Input.QuitIndex | src/Game.cpp:116-120 | the position of the first quit event, with no quit before it |
| Input.Polled | src/Game.cpp:116-120 | a pass takes events off the queue up to and including the first quit, with no quit before it, or all of them when there is no quit |
| Input.PassDirection | src/Game.cpp:112-147 | the direction after a pass is legal and never the reverse of the direction before it |
| Input.LatchedKey | src/Game.cpp:114-144 | no key is latched exactly when no key press comes before the first quit |
| Input.LatchedKeyIsFirstPress | src/Game.cpp:114-144 | a latched key is the first key press before the first quit, and only other events come before it |
| Input.FirstKeyWins | src/Game.cpp:122-144 | the first key press before any quit is the one the latch takes, whatever follows |
| Input.QuitBeforeKey | src/Game.cpp:117-120 | a quit before any key press ends the pass with no key taken |
| Input.LatchedKeySnoc | src/Game.cpp:122-144 | once a key has been taken the latch ignores later events, and before that it takes the next key press |
| Input.LatchedKeyAtQuit | src/Game.cpp:117-120 | events after the first quit are never looked at |
| Input.ReversalIgnored | src/Game.cpp:140-144 | pressing the reverse arrow first leaves the direction unchanged for the whole pass |
| Input.OnlyFirstKeyActs | src/Game.cpp:122-144 | with other events before it, the first key press alone decides the direction, whatever key presses follow |
| SnakeGame.Game.HandleEvents | src/Game.cpp:112-147 | the loop with its `keyHandled` latch sets the direction to `PassDirection` of the queue, clears `isRunning` iff a quit is queued and stops right after the first quit |
| Timing.FrameDelayIs16 | src/Game.cpp:291-292 | the frame delay 1000/60 is 16 ms in integer division |
| Timing.Elapsed | src/Game.cpp:299-301 | unsigned 32-bit `now - since`: adding it to `since` modulo 2^32 gives `now`, and it is the plain difference when there is no wrap |
| Timing.Advance | src/Game.cpp:307 | `+=` on a 32-bit counter agrees with plain addition modulo 2^32 |
| Timing.NoDrift | src/Game.cpp:304-308 | advancing the logic anchor by one period takes exactly one period off the elapsed logic time, across a wrap too |
| Timing.FrameTimer.constructor | src/Game.cpp:295-296 | each anchor starts at its own tick-count read, so the two may differ |
| Timing.FrameTimer.Poll | src/Game.cpp:299-314 | a logic step fires iff at least 100 ms elapsed, and then the logic anchor advances by exactly 100; a render fires iff at least 16 ms elapsed, and then the frame anchor becomes `now` |
| SnakeGame.Game.RunIteration | src/Game.cpp:298-317 | a due logic step runs one polling pass and then one tick, even after a quit in that pass; otherwise the fields are unchanged; each anchor advances only when its step fires and otherwise stays put; the invariant holds afterwards |

## Left out

- SDL and TTF set-up and teardown (`init`'s library calls, `cleanup`, the destructor). These are calls into a foreign library. Their success is one boolean given to `Init`.
- All rendering (`renderCheckerboard`, `renderBorders`, `renderCircle`, `renderSnake`, `renderApple`, `renderHUD`, `render`). It is pixel drawing with floating-point colour gradients. The grid constant `CellSize` is kept, but only the window set-up in `init` and the renderer use it.
- The `Logger` and every call into it. It does file and console I/O and reads the wall clock, and no log call affects game state.
- `startTime`. It is read from the clock and used only by the logger and the HUD.
- `std::random_device` and `std::mt19937`. They are replaced by the `draws` sequence given to each food draw.
- The `while (isRunning)` loop of `run`, `SDL_GetTicks` and `SDL_Delay`. Only one iteration is modelled (`RunIteration`), with the tick count as a parameter. Nothing on the loop's exit path touches game state.
- `main.cpp`. It only builds the game and calls `init`, `run` and `cleanup`.
- SnakeGame.Game.SpawnFood: does not model the case where no free cell ever comes up, because the original then loops forever.
- SnakeGame.Game.ResetGame: assumes the random stream given to the reset's food draw eventually yields a free cell, for the same reason.
- SnakeGame.Game.Update: assumes that a crash or an eat gets a random stream holding a free cell, for the same reason.
- `score` and `direction` are unbounded integers, not 32-bit `int`s. The invariant ties the score to the snake's length minus three, but the model does not prove that the length stays within the 400 cells of the band, so the absence of wrap-around is not proved.
