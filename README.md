# Clean-water mini games, modelled in Dafny

The repository holds two small browser games about clean water.

- `game.js` is a timed click game. Clean and polluted drops fall. A click on a clean drop scores 10 points and builds a streak, with a 20 point bonus on every fifth clean drop in a row. A click on a polluted drop costs 15 points, never below 0, and ends the streak. A progress meter counts clean drops toward a target of 50 and fires confetti once, when it first reaches 100%. A one-second countdown ends the game after 60 seconds and picks one of five messages by the final score.
- `script.js` is a two-zone platformer. Each frame reads the keys, applies gravity and keeps the player inside the world. A player who falls off loses a life. The frame then lands the player on platforms, collects droplets that fill a water meter, and applies enemy hits, which cost points and knock the player back. Checkpoint flags reveal facts, preferring facts not yet seen and of kind "fact". A zone is complete when the meter holds eight droplets' worth.

The model has six modules.

- `DropGame` (`drop_game.dfy`) covers `game.js`.
  - The `gameState` record and the page's drops and interval handles become the class `Session`.
  - The click rule, the meter and the message tiers are functions on values, with lemmas about them.
- `Prelude` (`prelude.dfy`) holds shared helpers: `Option`, `Math.max`/`Math.min`, and `Math.round` of a quotient.
- `Geometry` (`geometry.dfy`) holds `aabb`.
- `Tables` (`tables.dfy`) holds `LEVELS`, `FACTS` and the fact choice.
- `Entities` (`entities.dfy`) holds the player and the zone's entities, with the loops of one frame as methods.
- `Zone` (`zone.dfy`) holds the globals of `script.js` as the class `World`.
  - Its `Update` is proved to perform `Step`, a composition of five pass functions on a value snapshot, `Play`.
  - The invariants and end-of-zone rules are lemmas about those passes.

Positions, sizes and velocities in `script.js` are modelled as reals; scores, water, lives and the other counters of both games are unbounded integers.

## Model

| member | source | states |
|---|---|---|
| Prelude.RoundHalfUpSpec | game.js:186 | the rounding used for percentages yields the integer nearest to n/d, with halves rounded up (the behaviour of Math.round for the non-negative values the games use) |
| Geometry.Aabb | script.js:192-194 | boxes that only touch along an edge do not overlap; an overlap needs positive combined width and height |
| Geometry.AabbSymmetric | script.js:192-194 | the overlap test does not depend on argument order |
| Geometry.AabbIffCommonPoint | script.js:192-194 | for boxes of positive size, aabb holds exactly when some point lies strictly inside both |
| Tables.FindFromSpec | script.js:268-269 | Array find returns an eligible entry with no eligible entry before it, or reports that none is eligible |
| Tables.ChooseFactSpec | script.js:268-270 | the chosen fact comes from FACTS; it is an unseen entry of kind fact whenever one is left, and an unseen entry whenever one is left; the random pick is used only once every text has been seen |
| Tables.ChooseFactIsFirst | script.js:268 | the preferred entry is the first unseen entry of kind fact in table order |
| Tables.ChooseFactIsFirstUnseen | script.js:268-269 | when no unseen entry of kind fact is left, the entry chosen is the first unseen entry in table order |
| Tables.RevealBounds | script.js:265-271 | the set of facts seen only grows, stays within the table's texts, and gains at most one text per flag triggered |
| Tables.RevealDistinct | script.js:265-271 | while unseen texts remain, every triggered flag adds a new text |
| Tables.FactTextsCount | script.js:59-65 | the five FACTS texts are distinct |
| Entities.CountIfMono | script.js:241 | setting one-way flags (col, hit, triggered) never lowers their count |
| Entities.Advance | script.js:199-219 | left/right keys set vx to minus/plus speed, or 0; a jump starts only from the ground; gravity adds 0.9 to vy; the player moves by (vx, vy); x ends within [0, 920 - w]: it is set to 0 past the left edge, to 920 - w past the right edge, and otherwise left where the move put it |
| Entities.LandShape | script.js:225-237 | the platform pass changes only y, vy and onGround |
| Entities.LandOnPlatforms | script.js:225-237 | the player ends on the ground exactly when some platform passes the landing test; a landed player rests with its feet on a platform's top; otherwise only onGround is cleared |
| Entities.CollectDroplets | script.js:239-248 | exactly the uncollected droplets the player overlaps become collected; k collections add 10k to score and to water, and bounce the player when k > 0; the player's box is unchanged |
| Entities.StrikeHitRule | script.js:250-260 | enemy j is newly hit exactly when it was not hit and overlaps the player, shifted left by the knockbacks of the earlier hits of the same pass |
| Entities.StrikeShape | script.js:250-260 | the enemy pass changes only hit marks, and a hit enemy stays hit |
| Entities.StrikeEnemies | script.js:250-260 | the loop computes the front-to-back fold Strike; k new hits cost 20 each, never below 0, knock the player 28 left k times, never past 0, and throw it upwards |
| Entities.ReachFlags | script.js:262-274 | exactly the untriggered flags the player overlaps become triggered; each trigger adds the text ChooseFact picks from the facts seen so far; the overlay shows the last pick, and shows one exactly when a flag was triggered |
| Zone.WaterPercent | script.js:352 | the percentage lies in [0, 100] and is 100 exactly when the water reaches 80 |
| Zone.WaterPercentMonotone | script.js:352 | more water never shows a smaller percentage |
| Zone.FallOff | script.js:220-223 | below the bottom edge, the player is put back 60 above it at rest with one life fewer; otherwise it is unchanged |
| Zone.FreshDroplets | script.js:164 | loaded droplets keep the level's positions in order, none collected |
| Zone.FreshEnemies | script.js:165 | loaded enemies keep the level's boxes and kinds in order, none hit |
| Zone.FreshFlags | script.js:166 | loaded flags keep the level's boxes in order, none triggered |
| Zone.NextZone | script.js:369-377 | the next zone is (i + 1) mod the number of levels |
| Zone.LibraryNeverFills | script.js:93 | the Library zone's six droplets (script.js:93) hold at most 60 water, below the 80 a full meter needs (script.js:56), so without the debug keys that zone cannot be completed |
| Zone.LibraryStepNeverFills | script.js:276-279 | from any state of the Library zone that keeps the zone invariant, a frame leaves the water below a full meter, so play never completes that zone |
| Zone.MovePassSpec | script.js:199-237 | the move pass takes a life exactly when the player falls off, and changes nothing but the player, running and the end overlay |
| Zone.CollectPassSpec | script.js:239-248 | a droplet ends collected exactly when it was collected or the player overlaps it; other fields are unchanged; water never decreases |
| Zone.FlagPassSpec | script.js:262-266 | a flag ends triggered exactly when it was triggered or the player overlaps it; only the flags, the facts seen and the fact overlay change |
| Zone.StrikePassSpec | script.js:250-260 | the enemy pass follows the hit rule, only sets hit marks, and changes only the player, the enemies and the score |
| Zone.FlagPassFacts | script.js:262-274 | k flags triggered add at most k facts, exactly k while the table has that many unseen; the overlay shows a seen fact when k > 0 and is untouched otherwise |
| Zone.StepKeepsInvariant | script.js:198-280 | a frame keeps the zone invariant: the level's layout, water equal to 10 per collected droplet, score between 0 and the water, no more facts seen than flags triggered, and the player's shape and horizontal bounds |
| Zone.StepEnds | script.js:220-279 | a frame takes a life exactly on falling off; play stops exactly when the last life is lost or the meter is full; a full meter shows "completed" at 100% with the facts seen, even in the frame that lost the last life; otherwise a lost last life shows "failed" |
| Zone.RunCollect | script.js:239-248 | running the droplet loop on a snapshot yields the droplet pass |
| Zone.RunStrike | script.js:250-260 | running the enemy loop on a snapshot yields the enemy pass |
| Zone.RunFlags | script.js:262-274 | running the flag loop on a snapshot yields the flag pass |
| Zone.World.constructor | script.js:448-459 | init loads zone 0 (every droplet uncollected, enemy unhit and flag untriggered, water, score and facts seen cleared) and spawns the player without starting play |
| Zone.World.LoadZone | script.js:161-169 | the layout is copied from the level, all one-way flags are false, and water, score and facts seen are cleared; nothing else changes |
| Zone.World.SpawnPlayer | script.js:156-158 | the player is reset to the spawn values; nothing else changes |
| Zone.World.EndZone | script.js:349-360 | play stops, and the overlay shows the zone name, percentage and facts found, or a failure with the facts found; the percentage is 100 exactly when the meter is full |
| Zone.World.StartZone | script.js:382-391 | called with the current zone, as every caller does: overlays are hidden, the zone is loaded fresh, the player is spawned and play runs; the invariant holds |
| Zone.World.Start | script.js:363-365 | play begins from zone 0 with the player spawned, water, score and facts seen cleared, every droplet uncollected, enemy unhit and flag untriggered, and both overlays hidden |
| Zone.World.Restart | script.js:379 | play begins from zone 0 with the player spawned, water, score and facts seen cleared, every droplet uncollected, enemy unhit and flag untriggered, and both overlays hidden |
| Zone.World.Next | script.js:369-378 | play moves to NextZone of the current zone; the all-zones-complete notice fires exactly after the last zone; the new zone begins fresh, with the player spawned, water, score and facts seen cleared, every droplet uncollected, enemy unhit and flag untriggered |
| Zone.World.Update | script.js:198-280 | one frame changes the globals exactly as Step does, and keeps the invariant |
| DropGame.Click | game.js:141-163 | a click keeps the counters well formed, never lowers the best streak, and counts exactly one more drop |
| DropGame.CleanClick | game.js:150-162 | a clean drop earns 30 points exactly when the new streak is a positive multiple of 5, and 10 otherwise; it extends the streak, and the best streak follows |
| DropGame.PollutedClick | game.js:145-149 | a polluted drop costs 15 points, never below 0, resets the streak, and leaves the best streak and the clean count |
| DropGame.StreakIsTrailingCleanRun | game.js:147-153 | after any run of clicks, the streak is the number of clean clicks since the last polluted click |
| DropGame.RunKeepsStats | game.js:145-163 | over any run of clicks, score stays at least 0, the streak stays at most the best streak, and the best streak never falls |
| DropGame.CleanRunScore | game.js:151-158 | n clean clicks from a fresh game score 10n + 20 * floor(n/5) |
| DropGame.StreakThenPollution | game.js:145-158 | five clean drops and then a polluted one score 70 and then 55, with best streak 5 |
| DropGame.Percentage | game.js:185-186 | the meter shows min(100, 2 * clean); it is 100 exactly when 50 clean drops are collected |
| DropGame.TierOf | game.js:219-224 | the rank of the chosen message equals the number of thresholds among 100, 200, 300 and 400 that the score reaches |
| DropGame.TierMonotone | game.js:219-224 | a higher score never gets a lower message |
| DropGame.Session.constructor | game.js:55-64 | the page starts with the game stopped, all counters 0 and the full 60 second clock |
| DropGame.Session.StartGame | game.js:88-114 | ignored while a game runs; otherwise resets the counters and the clock, refreshes the meter to 0, registers both intervals and creates the first drop; the confetti flag is kept |
| DropGame.Session.ResetState | game.js:92-100 | the counters are zero, the clock is full and play is on |
| DropGame.Session.RemoveAllDrops | game.js:102 | every drop is detached from the container |
| DropGame.Session.CreateDrop | game.js:116-139 | an attached drop is appended only while a game runs; the class invariant is kept |
| DropGame.Session.RemoveDrop | game.js:138 | exactly the given drop is detached |
| DropGame.Session.HandleDropClick | game.js:141-169 | a detached drop changes nothing; otherwise the counters follow Click and the meter and confetti flag are refreshed |
| DropGame.Session.UpdateDisplays | game.js:181-195 | the meter shows Percentage(clean); confetti is set once the target is reached and fires at most once |
| DropGame.Session.UpdateTimer | game.js:197-202 | the clock loses one second; the game ends exactly when it reaches 0, and then every drop is detached and the modal shows TierOf(score); the counters, meter and confetti flag are kept |
| DropGame.Session.EndGame | game.js:204-212 | play stops, both intervals are cleared, every drop is detached, and the modal shows TierOf(score); the counters, clock, meter and confetti are untouched |
| DropGame.Session.ShowGameOver | game.js:214-228 | the modal shows the tier the five score thresholds select |
| DropGame.Session.ModalMessage | game.js:219-226 | the modal has a performance message exactly when it is open; that message is, by definition, Message of the tier it shows |
| DropGame.Session.RestartGame | game.js:230-234 | the modal closes; if no game was running a new one starts as in StartGame (fresh counters and clock, meter 0, both intervals, the first drop), and a running game is left as it was |
| DropGame.Session.RunClock | game.js:197-202 | left to itself after a start, the countdown ends the game on its 60th tick and not before, with the counters and confetti flag unchanged, and the modal showing TierOf(score); the meter is kept and every drop is the old one, detached |

## Left out

- Rendering is not modelled: the DOM, the canvas and its scaling, sprites, the character picker, `render`, the requestAnimationFrame loop and its unused `dt`, `updateUI`, `showFeedback`, the timer's colour change, `console.log`, `alert` and the demo fact button.
- Keyboard handling is not modelled: `keydown`/`keyup` are replaced by the `Input` each frame receives.
- The debug keys of script.js:473-476 are not modelled: `p` sets the water to a full meter (so the next frame completes any zone), and `f` shows a debug fact.
- `Math.random` becomes parameters:
  - the colour of each new drop (`isPolluted`, `firstIsPolluted`);
  - the fallback fact (`fallback`). There is one fallback index per frame, which is exact for the levels as given, since each level has one flag.
  - The drop's x position and pollutant image are not modelled.
- Timers are not modelled as a clock. Registered intervals are booleans. Each callback is a method the environment calls: `CreateDrop`, `UpdateTimer`, and `RemoveDrop` for a drop's fall end or the removal 200 ms after a click.
- DropGame.Session.StartGame: creates only the first drop. The two extra `createDrop` calls at 300 and 600 ms are further `CreateDrop` calls by the environment, still subject to the running guard.
- The fact overlay's 40-second auto-hide is not modelled. The overlay is hidden only by `startZone`.
- The confetti animation is not modelled. Each burst is counted by the ghost field `confettiBursts`, which the class invariant ties to `confettiTriggered`.
- IEEE doubles are modelled as exact reals. Math.round is modelled for the non-negative quotients that occur.
- Zone.World.Update: runs the droplet, enemy and flag loops on a snapshot of the globals and writes the globals back once, after all three loops (through `Restore`), rather than element by element. Within each pass, the player's position changes between enemies exactly as in the source, through `Strike`.
- game.js:65 has a stray `};` after `gameState`. Its `}` closes the DOMContentLoaded callback opened at game.js:6 early, and the `;` then falls inside the argument list of `addEventListener`, so `game.js` as written is a syntax error and does not load. The model follows the function bodies the file evidently intends, as if that line were absent.
- Without the debug keys, the Library zone can never be completed: it has six droplets and needs eight (`Zone.LibraryNeverFills`, and for a whole frame `Zone.LibraryStepNeverFills`). The model keeps this as the code has it; the intended fix (fewer droplets needed, or more droplets) is not evident from the code.
