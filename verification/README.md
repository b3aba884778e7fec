# pixel-runner simulation core, in Dafny

This project models the simulation core of the pixel-runner browser game (`GameFile/game.js`). The game is a side-scrolling runner. A hero runs left and right and jumps under gravity. Coins and spikes scroll in from the right edge. Touching a coin scores one point; touching a spike costs one life. When lives reach zero the game is over, and the `r` key restarts it.

The model covers:

- **Overlap test** (`aabb`).
- **One frame step** (`update`), in the game's order:
  - hero moves left or right while the arrow keys are held;
  - jump impulse, only from the ground;
  - gravity and the ground clamp;
  - spawner;
  - leftward scroll of coins and spikes;
  - coin collection and spike damage;
  - the one-shot game-over transition;
  - the two sprite-frame counters.
- **Restart** (`start`).
- **Frame loop gate** (`loop`): the time step is capped at 0.033 s, and the update is skipped while the game is paused or over.
- **Input listeners**: restart key, pause key, the held-keys set, the Escape help toggle, and the three help-overlay clicks.

The project has five modules, one per component of the game:

- `geometry.dfy` (`Geometry`): rectangles and the overlap test.
- `physics.dfy` (`Physics`): hero motion, scrolling, the two collision filters (`Kept`/`Hits`), the saturating loss of lives (`Drained`) and the sprite counters.
- `spawner.dfy` (`Spawner`): spawning coins and spikes. The platform's random numbers become `Roll` parameters in [0, 1).
- `gamelogic.dfy` (`GameLogic`): the whole game state as a value (`GameState`).
  - `Step`, `Tick`, `Reset` and the key and click handlers are functions of that value.
  - `Step` is defined as the composition of seven stage functions (`MoveStage` … `AnimateStage`), one per block of `update`.
  - `Run` folds a sequence of events over a state, so properties of whole sessions can be stated.
  - The invariant `Inv` holds in every reachable state:
    - the hero is never below the ground, and never more than 380²/1800 ≈ 80.2 above it (the jump's reach);
    - the hero is grounded exactly when it stands on the ground, and is then at rest;
    - the game is over exactly when lives are zero;
    - lives never exceed 3;
    - frame indices are in range;
    - every coin and every spike has its spawned shape.
- `runner.dfy` (`Runner.Game`): the running game as a class.
  - Its fields are updated in place, as the script does.
  - Its methods mirror the script's statements: field updates, `forEach` loops, and `filter` loops whose callbacks change the score and lives.
  - Most methods are proved to produce exactly the matching `GameLogic` function of their old state.
  - `MoveHero` states only the new hero (`HeroStep`), and `Start` states each field it resets. Their `modifies` frames leave every other field unchanged. `Update` and `OnRestartKey` then prove the whole-state equations with `Step` and `Reset`.
  - The frame loop and the input listeners are also proved to keep `Inv`.

Positions, velocities and time steps are exact `real`s.

## Model

| member | source | states |
|---|---|---|
| Geometry.AabbSymmetric | GameFile/game.js:71-78 | the overlap test gives the same answer with its arguments swapped |
| Geometry.AabbIffSharedPoint | GameFile/game.js:71-78 | for boxes of non-negative size, the test holds exactly when the closed boxes share a point; touching edges therefore count as a collision, because the separation test uses strict `<` |
| Geometry.TouchingEdgesOverlap | GameFile/game.js:71-78 | a box whose right edge lies on another's left edge, at heights that meet, collides with it, in both argument orders |
| Physics.HeroStepMovesX | GameFile/game.js:81-96 | a step moves the hero by +220·dt while ArrowRight is held and −220·dt while ArrowLeft is held; the jump, gravity and the ground clamp leave x alone |
| Physics.ArrowsCancel | GameFile/game.js:81-83 | with both arrow keys held, the horizontal moves cancel |
| Physics.FallClamps | GameFile/game.js:90-96 | after gravity and the clamp: the hero is never below GROUND_Y (300); if it stands at 300, then vy is 0 and it is grounded; otherwise it moved by exactly the integrated velocity; x is unchanged |
| Physics.HeroStepKeepsSettled | GameFile/game.js:81-96 | a hero step keeps the hero invariant for every key set and every dt: never below ground, grounded exactly on the ground, at rest while grounded, and 2·900·(300 − y) + vy² at most 380² (a step in the air lowers it by (900·dt)², the jump sets it to 380², landing to 0) |
| Physics.SettledHeightBounded | GameFile/game.js:85-96 | a hero satisfying the invariant is never more than 380²/1800 ≈ 80.2 above the ground (the script's nominal `MAX_JUMP_HEIGHT` is 80), so its height stays positive |
| Physics.TakeOff | GameFile/game.js:85-91 | grounded with Space held and 0 < dt <= 0.033: vy becomes -380 + 900·dt, the hero rises and is no longer grounded |
| Physics.NoDoubleJump | GameFile/game.js:85-88 | when airborne, holding Space changes nothing in the step (no double jump) |
| Physics.JumpExample | GameFile/game.js:85-96 | at rest on the ground with Space held and dt = 0.1, the hero ends with vy = -290 at y = 271, airborne |
| Physics.ScrolledMovesOnlyX | GameFile/game.js:99-100 | scrolling keeps the number and order of entities and moves each one left by exactly d, keeping y, width and height |
| Physics.ScrolledAppend | GameFile/game.js:98-100 | scrolling a list with spawned entities appended scrolls the old list and the new entities alike |
| Physics.KeptPlusHits | GameFile/game.js:102-112 | each entity is either kept or counted as a hit, so the count equals the number removed |
| Physics.KeptExactly | GameFile/game.js:102-112 | an entity survives the filter exactly when it was in the list and does not overlap the hero |
| Physics.KeptAppend | GameFile/game.js:102-112 | the filter and its count work front to back: filtering a concatenation concatenates the filtered parts, keeping their order, and adds their counts |
| Physics.DrainedClosedForm | GameFile/game.js:106-112 | n hits, each taking a life only while one remains, leave max(0, lives - n) |
| Physics.Advance | GameFile/game.js:122-132 | a sprite counter stays below its frame count, and advances by at most one frame (wrapping) per step |
| Physics.AdvanceTimerBounded | GameFile/game.js:122-132 | with 0 <= dt <= the frame duration, a sprite timer in [0, duration) stays there |
| Spawner.CoinY | GameFile/game.js:51-53 | a spawned coin's height is an integer in [220, 300) |
| Spawner.SpawnCoinsAppendsAtMostOne | GameFile/game.js:49-60 | a coin is appended exactly when its draw is below 0.03. Only at the end, existing coins unchanged. It sits at width + 20, is 24×24, and has an integer y in [220, 300) |
| Spawner.SpawnSpikesAppendsAtMostOne | GameFile/game.js:61-68 | a spike is appended exactly when its draw is below 0.02. Only at the end, existing spikes unchanged. It sits at width + 10 and y = 300, and is 40×40 |
| GameLogic.ResetCanonical | GameFile/game.js:201-217 | restart yields one fixed state: score 0, lives 3, hero at (50, 300) at rest and grounded, no coins or spikes, neither paused nor over, counters and timers 0. Only the held keys and help visibility are kept. Restarting twice equals restarting once, and the result satisfies the invariant |
| GameLogic.FrameDt | GameFile/game.js:194 | the loop's time step is never above 0.033. It equals the elapsed time whenever that is at most 0.033; otherwise it is 0.033 |
| GameLogic.StepPreservesInv | GameFile/game.js:80-133 | one update keeps the invariant `Inv` for every key set, time step and draw |
| GameLogic.StepCollectsCoins | GameFile/game.js:98-104 | after a step the coin list is exactly `Kept` of the spawned-and-scrolled coins: those that do not overlap the moved hero, in their original order. The score rises by exactly the number removed |
| GameLogic.StepDrainsLives | GameFile/game.js:98-112 | after a step the spike list is exactly `Kept` of the spawned-and-scrolled spikes: those that do not overlap the hero, in their original order. Lives become max(0, lives - removed) |
| GameLogic.StepGameOverOnce | GameFile/game.js:114-119 | after a step the game is over exactly when it was already over or lives are 0. The transition also pauses. A step that does not change game over leaves the pause flag alone, and no step touches the held keys or the help overlay |
| GameLogic.TickFrozen | GameFile/game.js:193-199 | while paused or over, a pass of the frame loop changes nothing |
| GameLogic.TickTakesOff | GameFile/game.js:85-96 | in a running game, a grounded hero with Space held takes off on the next frame with vy = -380 + 900·(capped dt) |
| GameLogic.KeysHeld | GameFile/game.js:219-232 | key-down adds the key's name to the held keys, and key-up removes it. The Space key is always named "Space". Key-up, and key-down of any key other than `r`/`R`, `p`/`P` and Escape, change nothing but the held keys |
| GameLogic.PauseKeyToggles | GameFile/game.js:223-225 | `p` flips the pause flag and changes neither game over, the help overlay nor the world |
| GameLogic.EscapeTogglesHelp | GameFile/game.js:234-242 | Escape flips the help overlay. Opening it pauses, and closing it resumes. Game over and the world are untouched |
| GameLogic.ApplyPreservesInv | GameFile/game.js:193-259 | every frame, key or click event keeps the invariant |
| GameLogic.RunPreservesInv | GameFile/game.js:193-259 | every sequence of events keeps the invariant |
| GameLogic.HeroStaysInField | GameFile/game.js:80-96 | over every session from page load, the hero's height stays within [300 − 380²/1800, 300], hence positive and never below the ground |
| GameLogic.GameOverClearedOnlyByRestart | GameFile/game.js:219-221 | the only event that clears game over is a key-down of `r`/`R` |
| GameLogic.ApplyMonotone | GameFile/game.js:102-112 | apart from restart, no event lowers the score or raises the lives |
| GameLogic.ScoreAndLivesMonotone | GameFile/game.js:102-112 | over any sequence of events without a restart, the score never falls and lives never rise |
| GameLogic.FrozenUntilRestart | GameFile/game.js:193-199 | once the game is over, any sequence of events without a restart leaves it over. Score, lives, hero, coins, spikes and sprite counters stay unchanged |
| Runner.Game.constructor | GameFile/game.js:18-33 | the game starts in the initial state: the restart state with no keys held |
| Runner.Game.Start | GameFile/game.js:201-217 | sets score 0 and lives 3, puts the hero at (50, 300) at rest and grounded, empties the coin and spike lists, clears pause and game over, and zeroes both sprite counters and timers. The held keys and the help overlay are outside its frame |
| Runner.Game.MoveHero | GameFile/game.js:81-96 | updates the hero in place to `HeroStep` of the old hero; nothing else changes |
| Runner.Game.Spawn | GameFile/game.js:49-69 | appends to the coin and spike lists exactly as `SpawnCoins`/`SpawnSpikes` say (the spawn stage); nothing else changes |
| Runner.Game.ScrollEntities | GameFile/game.js:99-100 | moves every coin left by 200·dt and every spike by 220·dt, in place, one by one; nothing else changes |
| Runner.Game.CollectCoins | GameFile/game.js:102-104 | the filter loop leaves exactly the coins not touching the hero. It adds one to the score per coin removed |
| Runner.Game.HitSpikes | GameFile/game.js:106-112 | the filter loop leaves exactly the spikes not touching the hero. It takes one life per spike removed while any remain |
| Runner.Game.CheckGameOver | GameFile/game.js:114-119 | sets game over and pause exactly when lives are 0 and the game is not over yet |
| Runner.Game.Animate | GameFile/game.js:122-132 | advances both sprite counters as `Advance` says |
| Runner.Game.Update | GameFile/game.js:80-133 | the in-place update, stage by stage, produces exactly `Step` of the old state and keeps the invariant |
| Runner.Game.Loop | GameFile/game.js:193-199 | one loop pass produces exactly `Tick` of the old state: a step capped at 0.033 s, skipped while paused or over. It keeps the invariant |
| Runner.Game.OnKeyDown | GameFile/game.js:219-242 | the four key-down listeners in registration order produce exactly `KeyDown` of the old state, keeping the invariant |
| Runner.Game.OnRestartKey | GameFile/game.js:219-221 | on `r` or `R` the state becomes exactly `Reset` of the old state; any other key changes nothing |
| Runner.Game.OnPauseKey | GameFile/game.js:223-225 | on `p` or `P` the pause flag flips; any other key changes nothing |
| Runner.Game.OnHoldKey | GameFile/game.js:227-229 | adds the key's name to the held keys, with the Space key named "Space" |
| Runner.Game.OnEscapeKey | GameFile/game.js:234-242 | on Escape the help overlay toggles, pausing when it opens and resuming when it closes; any other key changes nothing |
| Runner.Game.OnKeyUp | GameFile/game.js:230-232 | removes the key's name from the held keys |
| Runner.Game.OnHelpClick | GameFile/game.js:245-248 | shows the help overlay and pauses |
| Runner.Game.OnCloseClick | GameFile/game.js:250-253 | hides the help overlay and resumes |
| Runner.Game.OnBackdropClick | GameFile/game.js:255-259 | hides the help overlay and leaves the pause flag alone |

## Left out

- Drawing (`draw`, lines 135-188), the score and lives text of the heads-up display, and image loading (lines 37-47): presentation only. They read the state and never change it.
- `requestAnimationFrame`, `performance.now` and the `last` timestamp: frame scheduling and the wall clock. `Loop` takes the elapsed seconds as a parameter; the model places no sign restriction on it.
- `Math.random`: each spawn takes three independent draws in [0, 1) as parameters: the coin decision, the coin height and the spike decision. The script draws the coin height only when a coin is spawned, so after no coin its spike decision uses the second call. The model gives each decision its own draw. Probabilities are not modelled.
- IEEE double rounding: all arithmetic is exact. The `| 0` truncation of the coin height is `Floor`, which agrees with it because the value is positive and small.
- Spawner.CoinY: proves heights in [220, 300) under exact arithmetic. In doubles, `220 + r·80` rounds to exactly 300 for the largest draws below 1 (r = 1 − 2⁻⁵², for example), so the script can place a coin at 300; the model does not capture that.
- `toLowerCase()` in the restart and pause listeners is modelled as the two key values "r"/"R" and "p"/"P".
- The help overlay's initial visibility is set by the page, which is not part of this model. It is a constructor parameter.
- The click listeners are registered only when the three overlay elements exist. The model assumes that they do. For the backdrop click, `e.target === helpModal` is taken as given by the event kind.
- Coin and spike objects are mutated in place by the script. The model keeps them as values in sequences. No other reference to them exists, so no aliasing is lost.
- Entities that scroll off the left edge are never removed, neither by the script nor by the model. The lists grow without bound over a session.
