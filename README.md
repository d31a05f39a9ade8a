# Flappy Bird game logic in Dafny

This project models the simulation core of the Flappy Bird starter game,
`flappy-bird-starter/Game.js`, and proves properties of that model:

- **The pipe pool and the spawner.** `spawnPipe` and `spawnPipes`, with the two
  dead lists `deadPipeTops` and `deadPipeBottoms`. A dead list is a stack of
  killed pipes kept for reuse.
- **The frame step** `updateGame`:
  - gravity acts on the bird;
  - each alive pipe moves, is tested for a collision, and scores when passed;
  - the bird is held on the ground line, and its tilt is clamped;
  - the two ground tiles scroll as a ring.
- **The lifecycle:** `tap`, `setGameOver`, `reset` and `addScore`.
- **The tuning constants** at lines 9-14.

Modules:

- `Tuning` (tuning.dfy): the constants and the inline arithmetic. This covers
  the pipe heights, the gap centre, the tilt clamp and the ground line.
- `Pipes` (pipes.dfy): one pipe as a value. It holds what the sweep and one
  frame do to a pipe, the frame over a sequence of pipes, and the
  exactly-once scoring rule.
- `PipePool` (pool.dfy): the pipe nodes, the pipe group and the two dead lists.
  These are value-level definitions of the frame loop, the sweep and a spawn,
  plus the pool invariant and the lemmas about them.
- `Ground` (ground.dfy): the ground ring. The tiles are an array updated in
  place, in index order.
- `Flappy` (game.dfy): the `Game` class. Its fields are the component's fields
  and its methods are the component's methods. The methods' loops are proved
  against the `PipePool` and `Ground` definitions.

Pipe nodes are objects shared between the pipe group and the dead lists. The
model keeps every pipe node ever built in a table, `nodes`, indexed by an id.
The group and the two dead lists hold ids. A pipe that was killed during a
sweep is therefore in the group and in a dead list at once. A pipe dropped
from the group by `reset` can still sit in a dead list and be revived from
there, exactly as the shared objects allow.

## Model

| member | source | states |
|---|---|---|
| Tuning.PipeY | flappy-bird-starter/Game.js:53-58 | The top pipe's y is `openPos + OPENING/2` rounded down. The flipped (bottom) pipe's y is `openPos - OPENING/2 - 320` rounded down. |
| Tuning.PairSpan | flappy-bird-starter/Game.js:52-58 | For every gap centre, the top pipe's y minus the bottom pipe's y is exactly 440, which is `OPENING + PIPE_HEIGHT`. |
| Tuning.GapCentre | flappy-bird-starter/Game.js:97 | For a sample r in [0,1), the gap centre lies within a tenth of the scene height of the scene's middle. The upper end is excluded. |
| Tuning.TiltAngle | flappy-bird-starter/Game.js:239-242 | The tilt lies in [-π/2, π/4]. It equals `(FLAP + velocity)/FLAP` when that value is in range, and the nearer limit otherwise. |
| Tuning.GroundTop | flappy-bird-starter/Game.js:121-148 | The ground line is `GROUND_HEIGHT/2 - height/2` whatever the scene width, because the tile height cancels out. |
| Pipes.Swept | flappy-bird-starter/Game.js:87-93 | After the sweep a pipe is alive if and only if it was alive and not off screen. Nothing else about it changes. |
| Pipes.Advance | flappy-bird-starter/Game.js:212-225 | An alive pipe moves by its velocity. It hits if and only if its box at the new x meets the bird's box. It scores if and only if all of these hold: it is alive, it did not hit, it is a bottom pipe, it was not passed, and it is now left of the bird. It ends up passed if and only if it was passed or it scored. Its name, y, alive flag and velocity do not change. |
| Pipes.Scan | flappy-bird-starter/Game.js:212-226 | Over the group, every pipe ends as Advance makes it. The frame hits if and only if some pipe hits, so a hit does not stop the later pipes. The points gained are at most the number of pipes. |
| Pipes.ScanConservesScore | flappy-bird-starter/Game.js:222-225 | Points gained in a frame plus the pipes still able to score equals the pipes able to score before the frame. So each point uses up one unpassed bottom pipe. |
| Pipes.ScoresAtMostOnce | flappy-bird-starter/Game.js:222-225 | Over any run of frames a pipe scores at most once. A top pipe, or one already passed, never scores. A pipe that scored ends passed, and `passed` is never cleared. |
| Ground.RingStep | flappy-bird-starter/Game.js:257-267 | One frame of the strip keeps the number of tiles. Its tile-by-tile meaning is RingStepTiles; the in-place loop equals it (ScrollRing); it keeps the two-tile strip seamless (SeamPreserved, SeamlessForever). |
| Ground.RingStepTiles | flappy-bird-starter/Game.js:257-267 | A tile that one scroll step leaves at or right of -width moves exactly SPEED left. A tile that the step takes past -width lands at its ring neighbour's x plus `width - 1.55`. That neighbour is the next tile as it was before the frame, or, for the last tile, tile 0 as it is after the frame. In a one-tile strip it is the tile itself after its scroll step. |
| Ground.ScrollRing | flappy-bird-starter/Game.js:257-267 | The in-place loop over the tile array leaves the tiles as RingStep of the old tiles. Each tile scrolls by SPEED. A tile past `-width` goes to its right neighbour's x plus `width - 1.55`. The last tile sees tile 0's new x. |
| Ground.SeamPreserved | flappy-bird-starter/Game.js:256-268 | One frame keeps the two-tile strip seamless, provided a tile is wider than `SPEED + 1.55`. |
| Ground.InitialSeamless | flappy-bird-starter/Game.js:141 | The strip as set up, with tile 1 one width right of tile 0, is seamless. |
| Ground.SeamlessForever | flappy-bird-starter/Game.js:256-268 | After any number of frames the two tiles stay within `width - 1.55` and `width + SPEED - 1.55` of each other. |
| PipePool.MoveAll | flappy-bird-starter/Game.js:212-226 | The frame loop changes no node's name or alive flag. It leaves nodes outside the group unchanged and gains at most one point per member. |
| PipePool.MoveAllIsScan | flappy-bird-starter/Game.js:212-226 | On a group without repeats, the in-place loop over shared nodes gives each member the state that Scan gives it. The points and the hit are also those of Scan. |
| PipePool.MoveAllConservesScore | flappy-bird-starter/Game.js:212-226 | On a valid pool, points gained plus the group's members still able to score is conserved by a frame. |
| PipePool.MoveAllKeepsInvariant | flappy-bird-starter/Game.js:212-226 | A frame keeps the pool invariant. |
| PipePool.Cull | flappy-bird-starter/Game.js:87-94 | One visit of the sweep: the node becomes what Swept makes of it. Each dead list grows by the node's id exactly when the node is off screen and named like the list; otherwise it is unchanged. The group is not touched. CullKeepsPooled shows a dead list stays a dead list. |
| PipePool.CullKeepsPooled | flappy-bird-starter/Game.js:87-94 | After one visit of the sweep, each dead list still holds distinct ids of dead nodes of its own orientation. |
| PipePool.SweepAll | flappy-bird-starter/Game.js:86-95 | The sweep loop only ever kills: no node is revived, and nothing but the alive flag changes. Nodes outside the group are untouched. |
| PipePool.SweepAllIsSwept | flappy-bird-starter/Game.js:86-95 | On a group without repeats, each member ends as Swept makes it. Off-screen members are killed and every other member is unchanged. |
| PipePool.OffScreenIdsMembers | flappy-bird-starter/Game.js:86-95 | The ids the sweep picks for orientation k are exactly the group members whose node is named k and is off screen. |
| PipePool.SweepAllCulls | flappy-bird-starter/Game.js:86-95 | The sweep appends to the dead list named k exactly the off-screen members named k, in group order. The list stays distinct and holds only dead nodes named k. |
| PipePool.Sweep | flappy-bird-starter/Game.js:86-95 | The sweep of a pool. It keeps the group and the number of nodes. It changes nodes only in their alive flag and never revives one, and the dead lists only grow. With SweepAllIsSwept, SweepAllCulls and OffScreenIdsMembers, it kills exactly the off-screen members and appends them, in group order, to the list of their orientation. SweepKeepsInvariant shows it keeps the pool invariant. |
| PipePool.SweepKeepsInvariant | flappy-bird-starter/Game.js:86-95 | The sweep keeps the pool invariant: every dead member of the group is on a dead list. |
| PipePool.Spawn | flappy-bird-starter/Game.js:60-81 | A request for k pops only the dead list named k and leaves the other list unchanged. If that list is non-empty, the last id is revived: the group is unchanged, no node is built, and `passed` is kept. Otherwise a new node is built and added to the group. Either way the pipe is alive at (end, y) with velocity -SPEED, and no other node changes. |
| PipePool.SpawnKeepsInvariant | flappy-bird-starter/Game.js:60-81 | A spawn keeps the pool invariant. |
| PipePool.SpawnPair | flappy-bird-starter/Game.js:84-101 | The sweep and the two spawns of one timer firing keep the pool invariant. |
| PipePool.PairGeometry | flappy-bird-starter/Game.js:52-101 | The pair consists of two distinct alive pipes, one top and one bottom. Both are at end and move at -SPEED. The top one's y is exactly `OPENING + PIPE_HEIGHT` above the bottom one's. |
| PipePool.RevivedPassedNeverScores | flappy-bird-starter/Game.js:65-70 | A bottom pipe revived after it was passed is alive but never scores again, over any frames. |
| Flappy.Game.constructor | flappy-bird-starter/Game.js:110-148 | After setup: two ground tiles at 0 and width, the ground line from GroundTop, an empty pool, no timers, and the state `reset` leaves. |
| Flappy.Game.SetGameOver | flappy-bird-starter/Game.js:104-107 | `over` is set, and the last timer started is removed from the running timers. |
| Flappy.Game.AddScore | flappy-bird-starter/Game.js:194-196 | The score rises by exactly one. |
| Flappy.Game.Reset | flappy-bird-starter/Game.js:273-280 | After a reset: not started, score 0, the bird at (-0.3·width, 0) and level, the group empty. `over`, the nodes and the dead lists are not touched. |
| Flappy.Game.Tap | flappy-bird-starter/Game.js:283-295 | From not started, a tap sets `started` and starts a new timer. Then, if not over, `velocity` becomes FLAP. If over, the game resets, which leaves `over` set. |
| Flappy.Game.SweepOffScreen | flappy-bird-starter/Game.js:86-95 | The loop leaves the pool as Sweep makes it. |
| Flappy.Game.Retire | flappy-bird-starter/Game.js:87-94 | An alive pipe past the left edge is killed and its id pushed onto the dead list named like it. Any other pipe is left alone. |
| Flappy.Game.SpawnPipe | flappy-bird-starter/Game.js:52-81 | The pool and the returned id are those of Spawn, with the key chosen by `flipped`, y from PipeY and x at `bounds.right + 26`. The invariant is kept. |
| Flappy.Game.SpawnPipes | flappy-bird-starter/Game.js:84-101 | The pool becomes the one SpawnPair gives for the gap centre drawn from r. |
| Flappy.Game.MovePipes | flappy-bird-starter/Game.js:212-226 | After the loop, the nodes are those of MoveAll and the score has risen by its gain. The game is over if and only if it was already over or some pipe hit; a hit clears the timer. |
| Flappy.Game.MovePipe | flappy-bird-starter/Game.js:213-225 | One pipe's callback: the pipe becomes Advance's result. The score rises by one exactly when it scores, and a hit ends the game. |
| Flappy.Game.Play | flappy-bird-starter/Game.js:202-247 | The started branch. When already over, no pipe moves and the score and timers are unchanged, but the bird still falls. When not over, the pipes step as MoveAll does, and the game ends exactly on a hit or a bird at or below the ground line. A bird at or below the line ends on it, with velocity 0 and angle -π/2. One above the line gets the gravity-updated velocity, a clamped tilt and moves. |
| Flappy.Game.Collide | flappy-bird-starter/Game.js:208-232 | The not-over part: the pipe loop, then game over when the bird is at or below the ground line. |
| Flappy.Game.Fly | flappy-bird-starter/Game.js:234-247 | The ground clamp, or otherwise the tilt clamp, then the move by the velocity. |
| Flappy.Game.Idle | flappy-bird-starter/Game.js:249-253 | Before the start the bird takes the given bob height and is level. |
| Flappy.Game.ScrollGround | flappy-bird-starter/Game.js:257-267 | The ground tiles become RingStep of the old tiles. |
| Flappy.Game.UpdateGame | flappy-bird-starter/Game.js:201-270 | One frame in every case. Before the start, the bird takes the bob height and is level, and no pipe, score or timer changes. Once over, no pipe, score or timer changes. Otherwise the pipes, the score, game over and the bird behave as in Play. The ground scrolls one RingStep exactly when the game is not over at the end of the frame, and is otherwise unchanged. |

## Left out

- React plumbing (`componentWillMount`, `setupAudio`, rendering, the score text). `setState({score})` is modelled as a direct assignment to `score`, so its asynchrony is not modelled.
- Asset and scene setup (`setupBackground`, `setupPlayer`, `setupStaticNode`, `setupPipe`). Building a pipe is appending a fresh record to the node table. The constructor keeps only the ground tiles and the ground line from `setupGround`.
- The GameKit library is not part of this model. `forEachAlive`, `kill`, `revive`, `reset(x, y)` and `removeAll` are given their minimal meaning:
  - a loop over the group's alive members, in order;
  - setting or clearing `alive`;
  - setting the position;
  - emptying the group.
  `player.update` (sprite animation) is left out.
- THREE's bounding boxes are not computed. The bird's box is a parameter of the frame. A pipe's box is its position plus a fixed `Extent`, since every pipe has the same sprite size.
- `setInterval` and `clearInterval` become a set of running timer ids and the id of the last one started. The timer's periodic firing is not modelled: `SpawnPipes` is one firing.
- The `async` interleaving of `spawnPipe`: the two spawns of one firing run one after the other.
- `Math.random()` is the parameter `r` of `SpawnPipes`.
- The idle bob `8 * cos(Date.now() / 200)` is the parameter `bob` of `UpdateGame`.
- IEEE floating-point rounding is not modelled. All quantities are exact reals, and `Math.PI` is its 16-digit decimal.
- Identity of pipe objects: pipes are ids into a table of records rather than heap objects. Aliasing between the group and the dead lists is expressed by shared ids.
- The `pipe.size &&` guard of the sweep is always true, because every pipe is built with a size, so the model omits it.

## Quirks of the code

The model keeps these behaviours of `Game.js` as they are:

- The top pipe (`flipped` false) gets `floor(openPos + OPENING/2)` (Game.js:57). The bottom pipe gets `floor(openPos - OPENING/2 - 320)` (Game.js:55).
- A pipe that hits the bird returns only from its own callback (Game.js:216-219). Later pipes in the group still move and can score in the same frame.
- A pipe is moved before its collision test (Game.js:213-216).
- `reset` writes a misspelled `gameover` field (Game.js:275). `gameOver` is never cleared, so every later tap starts a new timer and resets again (Game.js:284-293).
- After game over the bird's velocity keeps integrating and the bird keeps moving (Game.js:204, 247). Only the pipes and the ground stop (Game.js:208, 256).
- `removeAll` does not push the removed pipes onto the dead lists (Game.js:279). A pipe revived from a dead list is not put back into the group, and it keeps its `passed` flag (Game.js:65-70).
- `reset` does not clear the spawn timer (Game.js:273-280).
- A bird at or below the ground line is pointed straight down at -π/2, not levelled (Game.js:235).
