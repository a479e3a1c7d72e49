# Arcade game step engines, modelled in Dafny

This project models the per-tick game logic of nine small browser and pygame
arcade prototypes: seven Flappy Bird variants and two Pac-Man variants. Each
source script becomes one Dafny module. Its mutable globals or class fields
become a Dafny `class`, and each event handler and each animation-frame tick
becomes one method call.

Each module states what a frame does to the game state. Lemmas then prove
what the game promises across frames:
- each pipe scores at most once;
- pipes keep their shape and leave only once off screen;
- collision tests mean what they say;
- walls never change;
- score plus the food left on the board stays constant;
- a finished game is frozen until it is reset.

| module | file | source |
|---|---|---|
| `FlappyVisual` | flappy_visual.dfy | ai_flappyBird/claude_visual/game.js |
| `FlappyPromptWeb` | flappy_promptweb.dfy | ai_flappyBird/claude_prompt+web/game.js |
| `FlappyCopilot` | flappy_copilot.dfy | ai_flappyBird/copilot/game.js |
| `FlappyClaude` | flappy_claude.dfy | ai_flappyBird/claude_/game.js |
| `FlappyWeb` | flappy_web.dfy | ai_flappyBird/claude_web/game.js |
| `FlappyOnline` | flappy_online.dfy | ai_flappyBird/copilot/online-game-project/src/game.js |
| `FlappyGpt4o` | flappy_gpt4o.dfy | ai_flappyBird/gpt4o/game.js |
| `PacmanWindsurf`, `PacmanWindsurfStart` | pacman_windsurf.dfy | ai_pac-man/windsurf/pacman.py |
| `PacmanAgent` | pacman_agent.dfy | ai_pac-man/claude_agent/game.js |

## Conventions

- Positions and velocities are Dafny `real`, which is exact. The step sizes
  in the sources (0.25, 0.5, 0.6, 1.5, 2) are all exact in it.
- Random values, clocks and timestamps are method parameters:
  - `Math.random()` becomes a `roll` in [0, 1), floored wherever the source floors it;
  - `Date.now()` and the animation timestamp become integers;
  - `random.choice` becomes an index `pick`, taken modulo the list length.
- Loops over a list become either:
  - a recursive specification function, with a method whose loop is proved equal to it; or
  - a method with loop invariants.
  
  Lists the source mutates in place are `seq` fields that the methods reassign.
- Python's `//` by the positive cell size is Dafny's `/` on `int`. JavaScript's
  `Math.floor(v / 16)` is `(v / 16.0).Floor` on `real`.

## Behaviour the proofs make explicit

- **claude_visual.** The backward pipe loop returns as soon as a pipe
  collides. The pipes below it in the list are left unmoved, and the boundary
  test at the end of `update` is skipped (`SweepHitLeavesLowerPipes`).
- **claude_.** The same loop does not stop on a collision. A pipe the bird
  has passed still scores in the frame in which another pipe is hit
  (`HitStillScores`).
- **copilot.** Each pair is two list entries that score half a point each.
  The two halves are kept or dropped together (`PairsStayTogether`).
- **online.** `forEach` with `splice` skips the entry after each one it
  removes. When both halves of a pair leave the screen in the same frame,
  the lower half stays, unmoved (`SecondEntrySkipped`). Every entry is still
  either kept or scored exactly once (`PassAccountsForEveryEntry`). This
  variant has no pipe collision at all.
- **gpt4o.** The floor clamp puts a falling bird exactly on the floor, and
  the collision check then ends the game. A SPACE press sets the lift even
  after the game is over.
- **windsurf.** The cyan ghost starts at (440, 320). That is a wall cell.
  Every 4-pixel step from there is blocked, so it never moves
  (`PacmanWindsurfStart.CyanGhostWalledIn`).
- **claude_agent.** Pac-Man starts at (224, 368). Its top-left point is on a
  wall cell, and only an upward step passes the wall test
  (`StartCellIsWall`). The fourth ghost also starts on a wall cell
  (`OrangeGhostStartsInWall`).

For the claude_visual bird (start 300, gravity 0.5, flap -8), a flap and
one tick leave it at y = 292.5 with v = -7.5, and after 31 ticks it is back
at y = 300 (`FlappyVisual.FlapThenFall`).

## Model

| member | source | states |
|---|---|---|
| FlappyVisual.PipeHeight | ai_flappyBird/claude_visual/game.js:72-75 | the drawn height is a whole number in [50, 400] |
| FlappyVisual.PipeHeightCoversRange | ai_flappyBird/claude_visual/game.js:73-75 | every height in [50, 400] is drawn by some random value |
| FlappyVisual.CollisionGeometry | ai_flappyBird/claude_visual/game.js:137-153 | no hit beside the column or inside the gap; a hit above or below the gap within the column |
| FlappyVisual.SweepScoresOnce | ai_flappyBird/claude_visual/game.js:108-129 | the backward loop never lowers the score, and each point uses up one unscored pipe |
| FlappyVisual.SweepKeepsSound | ai_flappyBird/claude_visual/game.js:108-129 | the loop keeps every pipe in its between-frames shape |
| FlappyVisual.SweepHitLeavesLowerPipes | ai_flappyBird/claude_visual/game.js:118-121 | on a hit the colliding pipe has moved and every pipe below it in the list is untouched |
| FlappyVisual.SweepMatchesSurvivors | ai_flappyBird/claude_visual/game.js:108-129 | the loop stops exactly when some moved, on-screen pipe collides; otherwise it equals the filter-and-mark reference definition |
| FlappyVisual.SurvivorsOnScreen | ai_flappyBird/claude_visual/game.js:112-115 | the loop never adds pipes, keeps none off screen, and drops none still on screen |
| FlappyVisual.GlideClosedForm | ai_flappyBird/claude_visual/game.js:97-98 | n frames of `v += g; y += v` give v + g n and y + v n + g n (n + 1) / 2 |
| FlappyVisual.FlapThenFall | ai_flappyBird/claude_visual/game.js:97-98 | from 300, a flap and one frame give (292.5, -7.5); after 31 frames the bird is back at 300, on screen |
| FlappyVisual.Game.constructor | ai_flappyBird/claude_visual/game.js:23-41 | bird at 300 at rest, no pipes, score 0, not over |
| FlappyVisual.Game.KeyDown | ai_flappyBird/claude_visual/game.js:54-61 | SPACE flaps while playing, touching nothing but the velocity, and resets when over; other keys change nothing |
| FlappyVisual.Game.Click | ai_flappyBird/claude_visual/game.js:63-69 | a click flaps while playing, touching nothing but the velocity, and resets when over |
| FlappyVisual.Game.ResetGame | ai_flappyBird/claude_visual/game.js:84-91 | bird, pipes, score and flag back to the start; the spawn time kept |
| FlappyVisual.Game.CreatePipe | ai_flappyBird/claude_visual/game.js:72-82 | appends one unscored pipe at x = 400 with the drawn height |
| FlappyVisual.Game.Update | ai_flappyBird/claude_visual/game.js:93-135 | frozen when over; otherwise gravity, the 1500 ms spawn gate, the backward loop, and game over on a hit or out of bounds |
| FlappyVisual.Game.UpdatePipes | ai_flappyBird/claude_visual/game.js:108-129 | the globals take the outcome of the backward loop |
| FlappyVisual.SweepPipes | ai_flappyBird/claude_visual/game.js:108-129 | the index loop computes exactly the recursive backward sweep |
| FlappyPromptWeb.PipeHeight | ai_flappyBird/claude_prompt+web/game.js:119-122 | the height lies in [50, 400) |
| FlappyPromptWeb.PipeHeightOnto | ai_flappyBird/claude_prompt+web/game.js:120-122 | every height in [50, 400) comes from some random value |
| FlappyPromptWeb.MovedPointwise | ai_flappyBird/claude_prompt+web/game.js:131-141 | each pipe moves 2 left and is marked once past the bird; the length is kept |
| FlappyPromptWeb.MovedScoresOnce | ai_flappyBird/claude_prompt+web/game.js:136-140 | points gained plus unscored pipes left equal the unscored pipes before |
| FlappyPromptWeb.OnScreenKeepsExactly | ai_flappyBird/claude_prompt+web/game.js:144 | the filter keeps exactly the pipes with x + 50 > 0 |
| FlappyPromptWeb.OnScreenAppend | ai_flappyBird/claude_prompt+web/game.js:144 | the filter keeps the order |
| FlappyPromptWeb.OnScreenUnscored | ai_flappyBird/claude_prompt+web/game.js:144 | the filter never adds unscored pipes |
| FlappyPromptWeb.MovePipes | ai_flappyBird/claude_prompt+web/game.js:131-141 | the for-of loop computes the move-and-score reference definition |
| FlappyPromptWeb.InsideGapsIsSafe | ai_flappyBird/claude_prompt+web/game.js:147-165 | a bird in bounds and beside or inside every gap collides with nothing |
| FlappyPromptWeb.CheckCollisions | ai_flappyBird/claude_prompt+web/game.js:147-165 | the early-return loop answers exactly the collision predicate |
| FlappyPromptWeb.MovedKeepsHeights | ai_flappyBird/claude_prompt+web/game.js:132-133 | moving keeps every height in range |
| FlappyPromptWeb.UpdatePipesKeepsShape | ai_flappyBird/claude_prompt+web/game.js:131-145 | updatePipes keeps every pipe sound and the score-per-pipe bound |
| FlappyPromptWeb.FlappyBird.constructor | ai_flappyBird/claude_prompt+web/game.js:2-40 | not started, not over, score 0, no pipes, frame 0, bird at 300 at rest |
| FlappyPromptWeb.FlappyBird.HandleInput | ai_flappyBird/claude_prompt+web/game.js:59-67 | starts before the start, resets when over, flaps otherwise |
| FlappyPromptWeb.FlappyBird.StartGame | ai_flappyBird/claude_prompt+web/game.js:69-72 | sets started and nothing else |
| FlappyPromptWeb.FlappyBird.ResetGame | ai_flappyBird/claude_prompt+web/game.js:74-85 | back to the start screen with everything zeroed |
| FlappyPromptWeb.FlappyBird.SpawnPipe | ai_flappyBird/claude_prompt+web/game.js:119-129 | appends one unscored pipe at x = 400 |
| FlappyPromptWeb.FlappyBird.UpdatePipes | ai_flappyBird/claude_prompt+web/game.js:131-145 | pipes moved, scored and filtered; score raised by the points gained |
| FlappyPromptWeb.FlappyBird.Update | ai_flappyBird/claude_prompt+web/game.js:87-117 | frozen unless started and not over; otherwise gravity, spawn every 90th frame, pipes, collision, frame + 1 |
| FlappyCopilot.PipeHeight | ai_flappyBird/copilot/game.js:49-52 | the height is a whole number in [50, 400] |
| FlappyCopilot.CreatedPairOk | ai_flappyBird/copilot/game.js:49-68 | the two entries form a pair: same x, the lower one starts 150 below the upper one and reaches the floor |
| FlappyCopilot.PairedAppend | ai_flappyBird/copilot/game.js:54-67 | appending a pair keeps the list made of pairs |
| FlappyCopilot.GapIsOpen | ai_flappyBird/copilot/game.js:84-91 | within a pair's column, the bird touches neither entry exactly when it is strictly inside the gap |
| FlappyCopilot.SurvivorsOnScreen | ai_flappyBird/copilot/game.js:115-122 | the loop adds no entries, keeps none off screen, and drops none on screen |
| FlappyCopilot.SurvivorsScoreOnce | ai_flappyBird/copilot/game.js:115-129 | each half point uses up one entry not yet passed |
| FlappyCopilot.KeepPair | ai_flappyBird/copilot/game.js:115-129 | both entries of a pair are kept or dropped together and gain the same |
| FlappyCopilot.PairsStayTogether | ai_flappyBird/copilot/game.js:115-129 | the loop keeps the list made of pairs and scores an even number of halves |
| FlappyCopilot.SweepEntries | ai_flappyBird/copilot/game.js:115-130 | the backward splice loop computes the survivors and adds 0.5 per passed entry |
| FlappyCopilot.HasCollision | ai_flappyBird/copilot/game.js:84-91 | `pipes.some` answers exactly the inclusive-overlap predicate |
| FlappyCopilot.Game.constructor | ai_flappyBird/copilot/game.js:8-25 | bird at 300 at rest, no pipes, score 0, not over, spawn time 0 |
| FlappyCopilot.Game.KeyDown | ai_flappyBird/copilot/game.js:146-165 | SPACE resets when over and flaps otherwise |
| FlappyCopilot.Game.CreatePipe | ai_flappyBird/copilot/game.js:49-68 | appends the upper and the lower entry of one pair |
| FlappyCopilot.Game.UpdatePipes | ai_flappyBird/copilot/game.js:115-130 | entries become the survivors; score rises by half the passed entries |
| FlappyCopilot.Game.UpdateGame | ai_flappyBird/copilot/game.js:93-136 | frozen when over; otherwise gravity, the spawn gate, the loop, then game over on collision or bounds |
| FlappyClaude.NewPipe | ai_flappyBird/claude_/game.js:46-54 | an unscored pipe at x = 400 whose gap is 150 tall and starts in [50, 400) |
| FlappyClaude.StruckIffSomeHit | ai_flappyBird/claude_/game.js:88-94 | the loop sets game over exactly when some moved, on-screen pipe collides |
| FlappyClaude.HitStillScores | ai_flappyBird/claude_/game.js:88-101 | a pipe the bird has passed still scores in the frame in which another pipe is hit |
| FlappyClaude.SurvivorsScoreOnce | ai_flappyBird/claude_/game.js:97-101 | each point uses up one unscored pipe |
| FlappyClaude.SurvivorsBeyond | ai_flappyBird/claude_/game.js:78-85 | a lower bound on x, less the 2 px step, holds after the loop |
| FlappyClaude.SurvivorsSpaced | ai_flappyBird/claude_/game.js:73-85 | the loop keeps pipes spaced more than 200 apart in spawn order |
| FlappyClaude.SpacedAppend | ai_flappyBird/claude_/game.js:73-75 | a pipe spawned more than 200 right of all others keeps the spacing |
| FlappyClaude.SpacedLastRightmost | ai_flappyBird/claude_/game.js:73 | in a spaced list the last pipe is the rightmost, so the spawn test looks at the right pipe |
| FlappyClaude.LastSurvives | ai_flappyBird/claude_/game.js:78-85 | if the last pipe stays on screen the list is not empty after the loop |
| FlappyClaude.SurvivorsSound | ai_flappyBird/claude_/game.js:78-85 | the loop keeps every pipe in shape |
| FlappyClaude.PassKeepsShape | ai_flappyBird/claude_/game.js:65-102 | a frame keeps pipes sound and spaced, and the score-per-pipe bound |
| FlappyClaude.SweepMatchesSurvivors | ai_flappyBird/claude_/game.js:78-102 | the backward sweep equals the survivors, points and hit reference definitions |
| FlappyClaude.SweepPipes | ai_flappyBird/claude_/game.js:78-102 | the index loop computes exactly the recursive backward sweep |
| FlappyClaude.Game.constructor | ai_flappyBird/claude_/game.js:10-24 | bird at 300 at rest, no pipes, score 0, not over |
| FlappyClaude.Game.Input | ai_flappyBird/claude_/game.js:27-43 | SPACE or a click resets when over and flaps otherwise |
| FlappyClaude.Game.ResetGame | ai_flappyBird/claude_/game.js:56-63 | bird, pipes, score and flag back to the start |
| FlappyClaude.Game.CreatePipe | ai_flappyBird/claude_/game.js:46-54 | appends one new pipe when the list is empty or the last pipe is left of x = 200 |
| FlappyClaude.Game.UpdatePipes | ai_flappyBird/claude_/game.js:78-102 | pipes become the survivors, score rises by the points, game over exactly on a hit |
| FlappyClaude.Game.Update | ai_flappyBird/claude_/game.js:65-108 | frozen when over; otherwise gravity, the distance spawn gate, the loop, and the bounds test |
| FlappyWeb.NewPipe | ai_flappyBird/claude_web/game.js:43-51 | an unscored pipe at the canvas edge with a 150 gap starting in [50, height - 200) |
| FlappyWeb.MovedPointwise | ai_flappyBird/claude_web/game.js:66-81 | each pipe moves 2 left and is marked once past the bird; the length is kept |
| FlappyWeb.StruckIffSomeCollision | ai_flappyBird/claude_web/game.js:66-75 | the forEach sets game over exactly when some moved pipe collides |
| FlappyWeb.MovedScoresOnce | ai_flappyBird/claude_web/game.js:77-80 | points gained plus unscored pipes left equal the unscored pipes before |
| FlappyWeb.OnScreenKeepsExactly | ai_flappyBird/claude_web/game.js:84 | the filter keeps exactly the pipes with x > -50 |
| FlappyWeb.OnScreenAppend | ai_flappyBird/claude_web/game.js:84 | the filter keeps the order |
| FlappyWeb.OnScreenUnscored | ai_flappyBird/claude_web/game.js:84 | the filter never adds unscored pipes |
| FlappyWeb.PassKeepsShape | ai_flappyBird/claude_web/game.js:66-84 | a frame keeps every gap 150 tall and the score-per-pipe bound |
| FlappyWeb.PassPipes | ai_flappyBird/claude_web/game.js:66-81 | the forEach computes the move, score and collision reference definitions |
| FlappyWeb.Game.constructor | ai_flappyBird/claude_web/game.js:12-22 | bird at mid-height at rest, no pipes, score 0, not over |
| FlappyWeb.Game.KeyDown | ai_flappyBird/claude_web/game.js:25-33 | SPACE resets when over and flaps otherwise |
| FlappyWeb.Game.ResetGame | ai_flappyBird/claude_web/game.js:35-41 | bird, pipes, score and flag back to the start |
| FlappyWeb.Game.CreatePipe | ai_flappyBird/claude_web/game.js:43-51 | appends one new pipe, whatever the state |
| FlappyWeb.Game.Update | ai_flappyBird/claude_web/game.js:53-85 | frozen when over; otherwise gravity, the bounds test, the forEach, then the filter |
| FlappyOnline.PipeHeight | ai_flappyBird/copilot/online-game-project/src/game.js:60 | the upper height lies in [20, 500) |
| FlappyOnline.NewPair | ai_flappyBird/copilot/online-game-project/src/game.js:59-73 | two entries at x = 400: the upper from the top, the lower from the end of the 100 gap to the floor |
| FlappyOnline.PassAccountsForEveryEntry | ai_flappyBird/copilot/online-game-project/src/game.js:47-53 | every entry is either kept or removed and scored, none twice |
| FlappyOnline.SecondEntrySkipped | ai_flappyBird/copilot/online-game-project/src/game.js:47-53 | when both halves leave together, the upper is removed and scored and the lower stays, unmoved |
| FlappyOnline.PassNeverMovesRight | ai_flappyBird/copilot/online-game-project/src/game.js:47-53 | an upper bound on every x still holds after the pass |
| FlappyOnline.ForEachSplice | ai_flappyBird/copilot/online-game-project/src/game.js:47-53 | the index walk over the shrinking list computes the front-to-back pass and its score |
| FlappyOnline.Game.constructor | ai_flappyBird/copilot/online-game-project/src/game.js:8-24 | bird at 300 at rest, no pipes, score 0, not over, spawn time 0 |
| FlappyOnline.Game.KeyDown | ai_flappyBird/copilot/online-game-project/src/game.js:95-108 | SPACE resets (spawn time included) when over and flaps otherwise |
| FlappyOnline.Game.SpawnPipe | ai_flappyBird/copilot/online-game-project/src/game.js:59-73 | appends one pair of entries |
| FlappyOnline.Game.UpdateGame | ai_flappyBird/copilot/online-game-project/src/game.js:32-57 | frozen when over; otherwise gravity, the bounds test, the 1500 ms gate with a second clock read, and the splice pass |
| FlappyGpt4o.NewPipe | ai_flappyBird/gpt4o/game.js:35-43 | a pipe at x = 320 with top in [0, 239] and top + bottom + 100 = 480 |
| FlappyGpt4o.NewPipeIsPassable | ai_flappyBird/gpt4o/game.js:36-41 | the 100 px gap fits the 20 px bird |
| FlappyGpt4o.MovedPointwise | ai_flappyBird/gpt4o/game.js:45-47 | each pipe moves exactly 2 left, nothing else changes |
| FlappyGpt4o.KeptExactly | ai_flappyBird/gpt4o/game.js:49 | the filter keeps exactly the pipes with x + 20 > 0 |
| FlappyGpt4o.KeptAppend | ai_flappyBird/gpt4o/game.js:49 | the filter keeps the order |
| FlappyGpt4o.MovePipes | ai_flappyBird/gpt4o/game.js:45-47 | the forEach computes the move reference definition |
| FlappyGpt4o.StruckIffSomePipeNotClear | ai_flappyBird/gpt4o/game.js:57-63 | no pipe strikes exactly when the bird is beside or inside the gap of every pipe |
| FlappyGpt4o.AnyHit | ai_flappyBird/gpt4o/game.js:57-63 | the forEach answers exactly whether some pipe strikes |
| FlappyGpt4o.UpdatePipesKeepsShape | ai_flappyBird/gpt4o/game.js:34-50 | updatePipes keeps every pipe sound and on screen |
| FlappyGpt4o.Game.constructor | ai_flappyBird/gpt4o/game.js:7-19 | bird at 150 at rest, no pipes, frame 0, not over |
| FlappyGpt4o.Game.KeyDown | ai_flappyBird/gpt4o/game.js:96-100 | SPACE sets the lift in every state |
| FlappyGpt4o.Game.UpdateBird | ai_flappyBird/gpt4o/game.js:66-74 | gravity, then the clamp: the bird never goes below the floor |
| FlappyGpt4o.Game.UpdatePipes | ai_flappyBird/gpt4o/game.js:34-50 | spawn on every 90th frame, move, filter |
| FlappyGpt4o.Game.CheckCollision | ai_flappyBird/gpt4o/game.js:52-64 | game over is set on bounds or any strike and never cleared |
| FlappyGpt4o.Game.GameLoop | ai_flappyBird/gpt4o/game.js:76-94 | frozen when over; otherwise the bird falls and is clamped as in updateBird, the pipes spawn, move and are filtered, the collision flag is set on the moved state, and frame + 1; landing on the floor ends the game |
| PacmanWindsurf.Layout | ai_pac-man/windsurf/pacman.py:27-43 | the maze has 15 rows of 20 cells; its contents are pinned by the three lemmas below |
| PacmanWindsurfStart.BorderClosedButTunnel | ai_pac-man/windsurf/pacman.py:28-42 | the top row and both side columns are walls, except the two open ends of the row-8 tunnel |
| PacmanWindsurfStart.BottomRowDots | ai_pac-man/windsurf/pacman.py:42 | the bottom row holds dots exactly in columns 2, 4, 6, 13, 15 and 17 and walls elsewhere |
| PacmanWindsurfStart.BottomRightNookOpen | ai_pac-man/windsurf/pacman.py:41-42 | the column-17 nook below row 13 is open: a step down from (680, 520) is clear |
| PacmanWindsurf.Maze.constructor | ai_pac-man/windsurf/pacman.py:27-43 | the maze holds the layout |
| PacmanWindsurf.Maze.Set | ai_pac-man/windsurf/pacman.py:143 | one cell is written, nothing else changes |
| PacmanWindsurf.WrapX | ai_pac-man/windsurf/pacman.py:62-66 | the wrapped x is on the board and unchanged when already on it |
| PacmanWindsurf.Target | ai_pac-man/windsurf/pacman.py:59-66 | the step target is on the board horizontally and moves y by the step |
| PacmanWindsurf.WrapCol | ai_pac-man/windsurf/pacman.py:81-85 | the wrapped column is a column index, unchanged when already one |
| PacmanWindsurf.ClearKeepsCentreRow | ai_pac-man/windsurf/pacman.py:86-88 | a box that passes the corner test lies within the rows, so its centre row exists |
| PacmanWindsurf.CanMove | ai_pac-man/windsurf/pacman.py:68-89 | the corner loop with `break` answers exactly the four-corner test |
| PacmanWindsurf.RowDotsClear | ai_pac-man/windsurf/pacman.py:142-143 | clearing a dot lowers the row's count by one |
| PacmanWindsurf.DotsReplaceRow | ai_pac-man/windsurf/pacman.py:142-143 | replacing a row changes the count by that row's change |
| PacmanWindsurf.EatTouchesOneCell | ai_pac-man/windsurf/pacman.py:131-144 | eating changes only the centre cell, never a wall, and leaves no dot there |
| PacmanWindsurf.EatCountsOneDot | ai_pac-man/windsurf/pacman.py:142-144 | eating removes exactly the dot it scores for |
| PacmanWindsurf.Refill | ai_pac-man/windsurf/pacman.py:250-253 | walls and dots are kept; a cell stays empty only in the tunnel |
| PacmanWindsurf.RefillIdempotent | ai_pac-man/windsurf/pacman.py:250-253 | refilling a refilled cell changes nothing |
| PacmanWindsurf.RefillTwiceIsOnce | ai_pac-man/windsurf/pacman.py:248-253 | a refilled maze is its own refill |
| PacmanWindsurf.RefillDots | ai_pac-man/windsurf/pacman.py:248-253 | the nested loops refill every cell |
| PacmanWindsurf.ResetGame | ai_pac-man/windsurf/pacman.py:241-253 | Pac-Man and each ghost back to their start, dots refilled, score and lives kept |
| PacmanWindsurf.Pacman.constructor | ai_pac-man/windsurf/pacman.py:45-49 | at (400, 520), standing, score 0, 3 lives |
| PacmanWindsurf.Pacman.ResetPosition | ai_pac-man/windsurf/pacman.py:51-55 | back to (400, 520), standing; score and lives kept |
| PacmanWindsurf.Pacman.Move | ai_pac-man/windsurf/pacman.py:57-144 | the buffered turn is taken if clear, then a clear step moves and eats; score plus 10 per dot left is kept |
| PacmanWindsurf.Pacman.Turn | ai_pac-man/windsurf/pacman.py:57-92 | the buffered direction replaces the current one exactly when its step is clear |
| PacmanWindsurf.Pacman.Advance | ai_pac-man/windsurf/pacman.py:94-144 | a clear step moves and eats at the centre; a blocked one changes nothing |
| PacmanWindsurf.EatDot | ai_pac-man/windsurf/pacman.py:131-144 | the centre cell is eaten and scores 10 for a dot |
| PacmanWindsurf.AdmissibleExactly | ai_pac-man/windsurf/pacman.py:198-235 | the candidate list holds exactly the non-reversing directions whose step is clear |
| PacmanWindsurf.Candidates | ai_pac-man/windsurf/pacman.py:198-235 | the loop with `continue` builds exactly that list, in compass order |
| PacmanWindsurf.Choice | ai_pac-man/windsurf/pacman.py:237-239 | the choice is an element of the list |
| PacmanWindsurf.BlockedGhostNeverReverses | ai_pac-man/windsurf/pacman.py:196-239 | a blocked ghost's new direction is allowed and never the reverse |
| PacmanWindsurf.Ghost.constructor | ai_pac-man/windsurf/pacman.py:147-152 | at its start, heading right |
| PacmanWindsurf.Ghost.ResetPosition | ai_pac-man/windsurf/pacman.py:154-157 | back to its start, heading right |
| PacmanWindsurf.Ghost.Move | ai_pac-man/windsurf/pacman.py:159-239 | a clear step moves; otherwise it stays and turns to a chosen candidate, if any |
| PacmanWindsurf.AnyContact | ai_pac-man/windsurf/pacman.py:331-340 | the loop with `break` finds a ghost within 20 px on both axes exactly when there is one |
| PacmanWindsurf.Game.constructor | ai_pac-man/windsurf/pacman.py:286-294 | the layout, 3 lives, score 0, not over; Pac-Man stopped at (400, 520), the three distinct ghosts at (360, 320), (400, 320) and (440, 320) heading right |
| PacmanWindsurf.Game.KeyDown | ai_pac-man/windsurf/pacman.py:302-322 | when over, SPACE starts a fresh game on the refilled maze with Pac-Man and new ghosts at their start positions; otherwise the arrows set the buffered turn |
| PacmanWindsurf.Game.MoveGhosts | ai_pac-man/windsurf/pacman.py:327-328 | every ghost makes its own move, by the Ghost.move relation, with its own random pick |
| PacmanWindsurf.Game.Resolve | ai_pac-man/windsurf/pacman.py:330-340 | a life is lost exactly when some ghost touches Pac-Man; then a reset to the start positions with the dots refilled, or game over on the last life; otherwise nothing changes |
| PacmanWindsurf.Game.Tick | ai_pac-man/windsurf/pacman.py:324-340 | frozen when over; otherwise Pac-Man's turn, step and meal, every ghost's move on the maze he leaves, and then a life lost exactly when a ghost touches him after the moves, with the reset (start positions, dots refilled) or game over |
| PacmanWindsurfStart.StartBoxesOpen | ai_pac-man/windsurf/pacman.py:286-290 | Pac-Man's, red's and pink's start boxes pass the corner test |
| PacmanWindsurfStart.CyanGhostWalledIn | ai_pac-man/windsurf/pacman.py:291 | the cyan ghost starts in a wall, every step is blocked and it has no candidate |
| PacmanAgent.Layout | ai_pac-man/claude_agent/game.js:26-57 | the maze has 30 rows of 28 cells |
| PacmanAgent.Cell | ai_pac-man/claude_agent/game.js:223-224 | the cell index is the floor: its band of 16 holds the coordinate |
| PacmanAgent.Wrap | ai_pac-man/claude_agent/game.js:231-233 | the wrapped x lies in [-24, width] and is unchanged when already there |
| PacmanAgent.Steer | ai_pac-man/claude_agent/game.js:202-220 | left and right, up and down add up; the facing is the last held key in the order left, right, up, down |
| PacmanAgent.OppositeKeysCancel | ai_pac-man/claude_agent/game.js:205-220 | opposite keys cancel the motion, and the later key sets the facing |
| PacmanAgent.RowWorthUpdate | ai_pac-man/claude_agent/game.js:184-193 | writing one cell changes a row's worth by that cell's change |
| PacmanAgent.WorthReplaceRow | ai_pac-man/claude_agent/game.js:184-193 | replacing a row changes the maze's worth by that row's change |
| PacmanAgent.SameWallsSamePassage | ai_pac-man/claude_agent/game.js:222-229 | mazes with the same walls pass the same moves |
| PacmanAgent.Eat | ai_pac-man/claude_agent/game.js:180-193 | eating keeps every wall and scores 0, 10 or 50 |
| PacmanAgent.EatKeepsTotal | ai_pac-man/claude_agent/game.js:184-193 | score plus 10 per dot and 50 per pellet left is unchanged by eating |
| PacmanAgent.EatTouchesCentreOnly | ai_pac-man/claude_agent/game.js:180-193 | only the centre cell changes; it is left without food and scores its value |
| PacmanAgent.Direction | ai_pac-man/claude_agent/game.js:145 | a drawn direction code is one of 0..3 |
| PacmanAgent.Ahead | ai_pac-man/claude_agent/game.js:148-149 | code 0 moves up, 1 right, 2 down, 3 left; other codes stand still |
| PacmanAgent.Ghost.constructor | ai_pac-man/claude_agent/game.js:18-23 | at its start, code 0, speed 1.5 |
| PacmanAgent.Ghost.Move | ai_pac-man/claude_agent/game.js:142-165 | maybe redraw, step if the wall test lets it, else stay and redraw; then wrap |
| PacmanAgent.DistanceTestIsSquaredTest | ai_pac-man/claude_agent/game.js:171-175 | for the square root d of dx² + dy², d < 24 exactly when dx² + dy² < 576 |
| PacmanAgent.AnyTouch | ai_pac-man/claude_agent/game.js:170-178 | the forEach answers exactly whether some ghost touches Pac-Man |
| PacmanAgent.Press | ai_pac-man/claude_agent/game.js:60-77 | keydown and keyup set or clear only their own arrow; other keys change nothing |
| PacmanAgent.Pacman.constructor | ai_pac-man/claude_agent/game.js:10-16 | at (224, 368), facing 0 |
| PacmanAgent.WrapKeepsPassage | ai_pac-man/claude_agent/game.js:231-233 | the tunnel never wraps Pac-Man onto a wall cell |
| PacmanAgent.StartCellIsWall | ai_pac-man/claude_agent/game.js:222-229 | the start cell is a wall; only the upward step passes the wall test |
| PacmanAgent.OrangeGhostStartsInWall | ai_pac-man/claude_agent/game.js:22 | the fourth ghost starts on a wall cell; a step up leaves it |
| PacmanAgent.Game.constructor | ai_pac-man/claude_agent/game.js:7-57 | the layout, score 0, not over, no keys held; Pac-Man at (224, 368) with code 0, the red, pink, cyan and orange ghosts at (224, 176), (208, 176), (240, 176) and (224, 192), all with code 0 |
| PacmanAgent.Game.KeyDown | ai_pac-man/claude_agent/game.js:67-71 | an arrow is marked held, in every state |
| PacmanAgent.Game.KeyUp | ai_pac-man/claude_agent/game.js:73-77 | an arrow is marked released |
| PacmanAgent.Game.MovePacman | ai_pac-man/claude_agent/game.js:201-233 | Pac-Man steps if the wall test lets it, then wraps; its top-left point never lands on a wall once it has left the start |
| PacmanAgent.Game.MoveGhosts | ai_pac-man/claude_agent/game.js:141-166 | every ghost takes its own turn with its own rolls |
| PacmanAgent.Game.CheckCollisions | ai_pac-man/claude_agent/game.js:168-194 | game over on any touching ghost; the centre cell is eaten in the same frame; walls and the score total kept |
| PacmanAgent.Game.Update | ai_pac-man/claude_agent/game.js:196-237 | frozen when over; otherwise Pac-Man, ghosts, contact and eating, in that order |

## Left out

- Drawing is not modelled:
  - canvas and pygame drawing, fonts, score text and DOM updates;
  - image loading and `Promise.all`;
  - the bird rotation clamps;
  - the copilot background scroll.
- Scheduling is not modelled: `requestAnimationFrame`, `setInterval`,
  event-listener registration, the copilot `animationFrameId` guard and the
  pygame clock. Each handler and each frame is one method call instead.
- The claude_web `setInterval(createPipe, 1500)` is modelled as its own
  method, `FlappyWeb.Game.CreatePipe`, that can be called in any state.
  The timer itself is left out.
- Real randomness and clocks are parameters with range preconditions.
- IEEE floating-point rounding is not modelled; positions are exact reals.
- `Math.sqrt` in the claude_agent contact test is replaced by the squared
  comparison. `DistanceTestIsSquaredTest` proves the two agree.
- The claude_agent Pac-Man mouth animation (`Math.sin(Date.now())`) is
  drawing state and is left out.
- The claude_agent power pellet's ghost vulnerability is an unimplemented
  comment in the source. Eating a pellet only scores 50 and changes no ghost.
- The claude_agent canvas width comes from the page, which is not part of
  this model. `PacmanAgent.Game.constructor` takes it as a parameter and
  requires it to be at least the maze width (448 px), as for a canvas that
  shows the whole maze.
- The pygame QUIT event and the `running` flag are left out.
- PacmanWindsurf.Maze: the maze is a list of rows (`seq<seq<int>>`) that
  `Set` reassigns, not a two-dimensional array. Aliasing of the rows is not
  captured. Python's list of lists has none that the game uses.
