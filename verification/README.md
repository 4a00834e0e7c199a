# Flappy-Bird simulation core in Dafny

A model of the game simulation in `Fly.py`, a small pygame Flappy-Bird clone. A bird
falls under gravity and jumps on the up key. Gapped pipes spawn at the right edge
and scroll left. Each pipe that leaves the screen scores a point. Touching the
ceiling, the floor or a pipe ends the game, and space restarts a finished game.

The model is functional. Pipes, the bird and the game are immutable datatypes, and
every operation is a pure function:

- `config.dfy` holds the game settings (`Config`).
- `geometry.dfy` holds pygame's integer rectangle and `colliderect` (`Geometry`).
- `pipes.dfy` models class `Pipe` (`Pipes`).
- `birds.dfy` models class `Bird` (`Birds`).
- `games.dfy` models class `Game` (`Games`).
- `controls.dfy` models the key dispatch and one pass of the main loop (`Controls`).

`Games.Valid` is the invariant of a reachable game:

- the bird keeps its size and column, is never below the floor, and holds at most 1000 jumps;
- every live pipe is well formed and lies between x = -60 and x = 400;
- the pipes are ordered left to right and more than 300 apart;
- a running game is never in a colliding position.

The initial state satisfies it. Every update, every command and every frame
preserves it. As a consequence, at most two pipes are ever live.

Two inputs the source takes from outside the simulation are parameters here:

- `draw: nat -> TopHeight` stands for `random.seed(score)` followed by `randint(100, 450)`.
  It is applied to the score at spawn time, so the top height stays a function of the score.
- `snap: real -> int` is how pygame turns the float `rect.y + velocity` back into the
  rectangle's integer y.

What the code does, where it differs from the intent its own comments state (Fly.py:72, 82, 86):

- Nothing sets `is_descending`, so gravity applies on every move. The down key only
  sets the velocity to 5 once.
- `is_jumping` is cleared only by reset. After the first jump, releasing the down key
  no longer restores the gravity velocity.
- The top height is drawn from [100, 450], so a bottom barrier can have height 0.
  Nothing keeps a margin above the floor.
- Landing recharges the jump budget, but the collision check in the same update then
  ends the game (`Games.LandingEndsGame`). The recharge only matters for the jump key
  pressed after the game is over, which the code still honours.

## Model

| member | source | states |
|---|---|---|
| `Pipes.NewPipe` | Fly.py:47-51 | a new pipe is well formed at the given x: its top barrier is (x, 0, 60, h), top height, gap and bottom height add up to 600, and the bottom barrier is empty exactly when h = 450 |
| `Pipes.PartitionsColumn` | Fly.py:49-51 | the two barriers and the gap of any well-formed pipe split the 600-pixel column into consecutive pieces, and the barriers never overlap |
| `Pipes.Move` | Fly.py:53-56 | x drops by exactly 5, both barriers follow the pipe's x, their heights and vertical positions are unchanged, and well-formedness is preserved |
| `Pipes.OffScreen` | Fly.py:62-63 | a well-formed pipe is off-screen exactly when both barriers lie wholly left of x = 0 |
| `Pipes.MoveNShifts` | Fly.py:53-56 | after k ticks a pipe has moved 5k to the left, kept its height and stayed well formed |
| `Pipes.SpawnedPipeLifetime` | Fly.py:53-63 | a pipe spawned at x = 400 is off-screen after k ticks exactly when k is at least 93 |
| `Birds.Initial` | Fly.py:67-72 | the starting bird is 20x20, centred on (100, 300), falling at velocity 2, with 1000 jumps and both flags clear |
| `Birds.InitialValid` | Fly.py:67-72 | the starting bird satisfies the bird invariant |
| `Birds.Jump` | Fly.py:74-79 | with jumps left, the velocity becomes -2, the jumping flag is set and exactly one jump is spent; with none left, nothing changes; the budget stays within [0, 1000] |
| `Birds.JumpBudget` | Fly.py:74-79 | after n presses, max(0, jumps - n) jumps remain, the rectangle is untouched, and the velocity is -2 whenever at least one press was honoured (n > 0 and a non-empty budget) |
| `Birds.Descend` | Fly.py:81-83 | the velocity becomes 5 and nothing else changes; the fast-descend flag is not raised |
| `Birds.StopDescend` | Fly.py:85-88 | a bird that has jumped is unchanged; otherwise the velocity becomes the gravity constant; nothing else changes |
| `Birds.Move` | Fly.py:90-101 | afterwards the bird's bottom is at most 600; it is exactly 600 iff the move reached the floor, and then the velocity is 0 and the budget is back to 1000; otherwise the budget is unchanged and the velocity has gained gravity |
| `Birds.GravityAlwaysApplies` | Fly.py:90-95 | a reachable bird that does not land gains exactly 0.05 velocity per move, so the fall speed grows without bound |
| `Birds.JumpThenMove` | Fly.py:74-95 | a jump followed by a move that does not land leaves the velocity at -1.95 with one jump spent |
| `Birds.Reset` | Fly.py:107-112 | the bird is re-centred on (100, 300) with velocity 2, jumping flag clear and 1000 jumps; its size and fast-descend flag are kept |
| `Birds.ResetIsInitial` | Fly.py:107-112 | resetting any reachable bird gives exactly the starting bird |
| `Games.Initial` | Fly.py:116-120 | a new game has the starting bird, no pipes, score 0 and is running |
| `Games.InitialValid` | Fly.py:116-120 | a new game satisfies the game invariant |
| `Games.HitsAnyPipe` | Fly.py:134-136 | the scan over the pipes reports a hit iff the bird overlaps the top or bottom barrier of some live pipe |
| `Games.CheckCollisions` | Fly.py:130-136 | the game is over afterwards iff it was over before or the bird touches the ceiling, the floor or a barrier; nothing else changes |
| `Games.Spawn` | Fly.py:122-128 | exactly one pipe, at x = 400 with height drawn from the score, is appended when the list is empty or the last pipe is left of x = 100; otherwise the list is unchanged; existing pipes are never altered |
| `Games.SpawnKeepsInvariant` | Fly.py:122-128 | spawning keeps the pipes well formed, inside the field and more than 300 apart |
| `Games.MoveAndCull` | Fly.py:147-151 | the survivors are exactly the moved pipes that are still on screen, in their original order (`OnScreen`, an independent filter over the moved list), none of them off-screen, and `removed` is the number of the others: survivors plus removed account for every pipe |
| `Games.NothingCulledOnScreen` | Fly.py:147-151 | when no pipe goes off-screen, every pipe survives, moved, and nothing is removed |
| `Games.CullKeepsSpacing` | Fly.py:147-151 | moving and culling keeps the pipes ordered and more than 300 apart |
| `Games.CullKeepsInField` | Fly.py:147-151 | survivors stay well formed and between x = -60 and x = 395 |
| `Games.AtMostTwoPipes` | Fly.py:122-151 | a valid game has at most two live pipes |
| `Games.Update` | Fly.py:138-153 | a finished game is returned unchanged; a running game is over afterwards iff its moved bird collides with the live pipes, and then no live pipe is off-screen; the score never drops (what the pipes become is stated by `Games.ScoreCountsCulledPipes`) |
| `Games.Tick` | Fly.py:143-153 | for a running game, the bird moves once, the live pipes become the spawned list moved one tick with the off-screen ones culled, none of them is off-screen, the game is over afterwards iff the moved bird collides with them, and the score never drops |
| `Games.UpdateKeepsValid` | Fly.py:138-153 | an update preserves the game invariant |
| `Games.LandingEndsGame` | Fly.py:130-133 | a bird that reaches the floor during its move ends a running game in the same update |
| `Games.ScoreCountsCulledPipes` | Fly.py:144-151 | in one update of a running game the live pipes become the spawned list moved one tick and culled, and the score grows by exactly the number of culled pipes: score plus live pipes grows by one when a pipe was spawned and is otherwise unchanged |
| `Games.Reset` | Fly.py:180-185 | the game is running again with no pipes and score 0, and its bird is the bird's own reset: re-centred, velocity 2, jumping flag clear, full budget |
| `Games.ResetIsInitial` | Fly.py:180-185 | resetting a valid game gives exactly a new game |
| `Controls.CommandOf` | Fly.py:198-208 | up, down and space presses and the down release issue jump, descend, retry and stop-descend; any other event issues nothing |
| `Controls.CommandOfEventOf` | Fly.py:198-208 | every command is recognised from its own key event |
| `Controls.Apply` | Fly.py:198-208 | jump, descend and stop-descend run the bird's `jump`, `descend` and `stop_descend` and leave the pipes, score, flag and bird position alone; retry resets only a finished game and leaves a running one unchanged; no command ends a game and only retry clears game over; validity is preserved |
| `Controls.Dispatch` | Fly.py:198-208 | no event ends a game; any event but a space press leaves the pipes, score and game-over flag alone; space leaves a running game unchanged and clears a finished one to no pipes, score 0, running; validity is preserved |
| `Controls.DispatchAll` | Fly.py:193-208 | a frame's events never end a game, and they either leave the pipes and score as they were or leave no pipes and score 0 |
| `Controls.DispatchAllKeepsValid` | Fly.py:193-208 | handling a frame's events in order preserves the game invariant |
| `Controls.DispatchAllWithoutSpace` | Fly.py:193-208 | without a space press, a frame's events leave the game-over flag, the pipes and the score unchanged |
| `Controls.Frame` | Fly.py:193-211 | a frame ends a running game only through a collision, a game still running after it is not in a colliding position, and without a space press a finished game stays finished with the same pipes and score |
| `Controls.FrameKeepsValid` | Fly.py:190-211 | a full frame (events, then update) preserves the invariant and leaves at most two live pipes |
| `Controls.RetryRestarts` | Fly.py:203-204 | space on a finished valid game yields exactly a new game |
| `Controls.Run` | Fly.py:190-211 | a finished game stays finished, with the same pipes and score, through any number of frames none of which presses space |
| `Controls.RunKeepsValid` | Fly.py:188-211 | any number of frames preserves the invariant and never leaves more than two live pipes |

## Left out

- Rendering: the `draw` methods, screen, font and clock setup, and `display.update` (Fly.py:29-43, 58-60, 103-105, 155-178, 213-217). They do not affect the game state.
- Event polling, the frame rate, and quitting via `pygame.quit` and `sys.exit` (Fly.py:188-196). Quitting is not a state transition.
- Python's Mersenne Twister. `random.seed(self.score)` and `randint` are the parameter `draw`, an arbitrary function from score to a height in [100, 450].
- Floating-point rounding. Velocities are exact reals, so `Birds.GravityAlwaysApplies` is exact where the source accumulates 0.05 in binary floating point.
- Birds.Move: pygame's float-to-int coercion in `rect.y += velocity` is the parameter `snap`, so the new y is not computed. The floor clamp, the jump budget and scoring do not depend on it.
- Zero-size corner cases of pygame's `colliderect`. Collision is strict overlap of open rectangles, and the only zero-size rectangle (an empty bottom barrier) lies on the floor, below every valid bird.
- The module-level `bird_rect` shared by every `Bird` (Fly.py:36, 68). There is only one bird, and the model gives it its own rectangle.
