# xiao-runner frame simulation in Dafny

A model of the game core of xiao-runner, a one-dimensional runner played on an LED
strip. A hand-held controller classifies its joystick and button readings and sends
them as a `[x|y|z]` text frame. The lights firmware parses the frame and runs one
level per frame. In each frame the player moves, attacks or recovers. Its
`PlayerMovement` message is then threaded through the obstacles in layout order, and
the first obstacle that turns it into a collision or into `GoalReached` decides the
level. A decided level plays a win or lose animation for good.

Both generations of the lights firmware are modelled, each in its own modules, since
their rules differ:

- xiao-lights (the newer one): `XiaoTimer`, `XiaoPlayer`, `XiaoObstacle`,
  `XiaoAnimation`, `XiaoLevel`, and `XiaoMain` with `XiaoLevelText` (the payload
  parser and the walk over the embedded levels file).
- beetle-lights (the older one): `BeetleTimer`, `BeetlePlayer`, `BeetleObstacle`,
  `BeetleLevel`, and `BeetleMain` (its two-field payload parser).
- xiao-controller: `XiaoController`. `Decimal` holds the `%d` text and the `uint32_t`
  accumulator both sides share, and `Wire` connects the controller's frames to each
  generation's parser.

Every entity is a value. A C++ update that consumes the old object and returns the
moved one becomes a function from the old state to the new one. Code with loops
becomes a method with loop invariants, and its `ensures` ties the result to that
function: the level's obstacle fold, the animation's write loop, the parsers, the
level-file walk and the controller's copy loop. The fixed-size C++ arrays are
fixed-length sequences. The globals of the xiao-lights `main.cpp` and of the
controller are classes whose methods change their fields. Integers are unbounded, and
the `uint32_t`, `uint16_t` and `uint8_t` wrap-around is written out where the code
relies on it: the pawn's patrol bounds, the goal's 16-bit position, the parser
accumulators and counters, the level size and count, and the controller's failure
count.

Three callers use an interface that their callees in this repository do not offer:

- the xiao level uses `Animation::MiddleOut` and `light_begin`;
- the beetle level uses `Obstacle(char, position)` and `update(time, message)`;
- the xiao `main.cpp` uses `beetle_lights::Level::update` and `result`.

Each of these callers is modelled over a record of functions (`AnimationOps`,
`ObstacleOps`, `LevelOps`) that stands for the missing callee.

Where a prose description of the game and the code differ, the model follows the code:

- After a move, the player's movement timer is replaced by an unstarted one, whose
  next tick only records a start time. So a player moves at most every other frame,
  not once per timer period (`XiaoPlayer.NoTwoMovesInARow`).
- The pawn's and the enemy's reversal tests are strict (`>` and `<`), so a patrol
  spans `origin - 11` to `origin + 11`.
- The xiao level places obstacles at their character index. The beetle level places
  them at the index plus one.
- The xiao firmware skips a header line in the levels file. When it rotates to a
  level after a result, it also skips that level's first character
  (`XiaoLevelText.RotationSkipsFirstCharacter`, `XiaoLevelText.FileRotation`).
- The beetle parser has only two fields. It reads the controller's three-field frame
  `[x|y|z]` as `(x, 100 y + 760 + z)` (`Wire.ControllerToBeetleLights`).

## Model

| member | source | states |
|---|---|---|
| XiaoTimer.SaturatingSub | src/xiao-lights/src/timer.hpp:52 | the new remaining time never exceeds the old one; it is zero exactly when the elapsed time reaches it, otherwise the difference |
| XiaoTimer.Tick | src/xiao-lights/src/timer.hpp:34-56 | a timestamp from the past changes nothing and does not fire; the first tick only records the baseline; otherwise the remaining time drops by the elapsed time; the interval never changes; the flag is true exactly for a started timer whose remaining time reached zero |
| XiaoTimer.FlagIsDone | src/xiao-lights/src/timer.hpp:55-60 | on a counted tick the returned flag is `is_done()` of the returned timer |
| XiaoTimer.DoneStaysDone | src/xiao-lights/src/timer.hpp:49-55 | a used-up, started timer fires on every later tick and stays used up |
| XiaoTimer.FreshTimerFires | src/xiao-lights/src/timer.hpp:8-12 | `Timer(n)` first ticked at a nonzero time fires on a tick at least `n` later |
| XiaoTimer.TickAtZeroKeepsUnstarted | src/xiao-lights/src/timer.hpp:41-46 | a tick at time 0 does not start a fresh timer (0 is the "not started" marker) |
| XiaoTimer.TicksTelescope | src/xiao-lights/src/timer.hpp:48-53 | over non-decreasing timestamps the remaining time is the original minus the total elapsed time (floored at 0), and the last timestamp is recorded |
| XiaoTimer.FiresIffElapsed | src/xiao-lights/src/timer.hpp:34-56 | a started timer fires on a tick exactly when the total time since its baseline reaches its remaining time |
| BeetleTimer.Tick | src/beetle-lights/src/timer.hpp:28-42 | the first tick records the baseline; a past timestamp or a used-up timer changes nothing; otherwise the remaining time drops by the elapsed time; the flag always equals "remaining is zero" |
| BeetleTimer.AgreesWithXiaoWhileRunning | src/beetle-lights/src/timer.hpp:28-42 | while time remains, a beetle tick and an `xr::Timer` tick give the same timer and the same flag |
| BeetleTimer.DiffersOnceUsedUp | src/beetle-lights/src/timer.hpp:29-32 | a used-up beetle timer fires even for a timestamp from the past, where `xr::Timer` does not |
| BeetleTimer.TicksTelescope | src/beetle-lights/src/timer.hpp:35-41 | over non-decreasing timestamps the remaining time is the original minus the total elapsed time, floored at 0 |
| XiaoPlayer.Frame | src/xiao-lights/src/player.hpp:62-146 | the player moves one step along its previous facing exactly when the movement timer fires; the movement timer is fresh when it fired and ticked otherwise; facing follows the sample's x axis against 1000/3000; one light at the new position coloured by state; the message reports position and attacking; the attack/recovery cycle driven by the idle timer; the idle timer holds the attack duration when an attack starts, is re-armed with the debuff duration whenever it fires, and is ticked otherwise; never dies here |
| XiaoPlayer.NoTwoMovesInARow | src/xiao-lights/src/player.hpp:69-72 | after a frame that moved, the next frame does not move (the fresh timer only takes its baseline) |
| XiaoPlayer.AttackIgnoredUnlessIdle | src/xiao-lights/src/player.hpp:93-97 | an attack sample changes nothing for a player that is attacking, or recovering with an idle timer that does not fire |
| XiaoPlayer.AttackCycle | src/xiao-lights/src/player.hpp:81-97 | idle → attacking (attack sample) → recovering after 1000 ms → idle after 2000 ms more |
| XiaoObstacle.TryFrom | src/xiao-lights/src/obstacle.hpp:131-145 | an obstacle exactly for `'x'`, `'g'` and `'s'` (pawn, goal, snake at the location, the goal's narrowed to 16 bits), nothing for any other token |
| XiaoObstacle.Frame | src/xiao-lights/src/obstacle.hpp:169-242 | at most one light; only a player movement landing on a goal or on a pawn is replaced; snakes and corpses are inert; a goal shows itself and turns a landing into `GoalReached`; a pawn landed on becomes a corpse under an attacking player and otherwise reports a collision, stays put and goes dark; else it patrols one step when its timer fires and shows itself; a pawn that stays a pawn holds a fresh movement timer when it fired and the ticked timer otherwise, in the collision case too |
| XiaoObstacle.PatrolStaysInRange | src/xiao-lights/src/obstacle.hpp:208-218 | away from the ends of the `uint32_t` range, one patrol step keeps a pawn within 11 squares of its origin |
| XiaoObstacle.NewPawnPatrols | src/xiao-lights/src/obstacle.hpp:71-76 | a new pawn starts inside its patrol range |
| XiaoObstacle.PatrolPreserved | src/xiao-lights/src/obstacle.hpp:193-223 | every frame keeps a patrolling pawn patrolling around the same origin, or turns it into a corpse |
| XiaoObstacle.PawnAtOriginTenWraps | src/xiao-lights/src/obstacle.hpp:209-216 | with origin 10 a pawn walking `RIGHT` from square 0 wraps to the top of the `uint32_t` range and keeps going |
| XiaoObstacle.PawnNearStartShuttles | src/xiao-lights/src/obstacle.hpp:213-216 | with origin below 10 the wrapped lower bound makes a pawn shuttle between `origin + 10` and `origin + 11` |
| XiaoAnimation.New | src/xiao-lights/src/animation.hpp:12-20 | a new animation has an empty 50-slot buffer, step 0, origin 50 and is not done |
| XiaoAnimation.NumWrites | src/xiao-lights/src/animation.hpp:80-90 | the write loop never writes more than 25 pairs |
| XiaoAnimation.Ticked | src/xiao-lights/src/animation.hpp:58-103 | a finished animation never changes; otherwise the total timer is ticked and the animation finishes exactly when it fires; a step happens exactly when the stepper fires, and the stepper is then fresh, otherwise ticked; on a step, the first `NumWrites(step)` pairs hold slot `2m` = `origin + m` and `2m + 1` = `origin - m` in the animation's colour and every other slot is kept; without a step the buffer is unchanged; the buffer is never cleared |
| XiaoAnimation.Tick | src/xiao-lights/src/animation.hpp:58-103 | the counter loop computes `Ticked`: after `n` iterations exactly `NumWrites(n)` mirrored pairs are written |
| XiaoAnimation.TickKeepsWellPainted | src/xiao-lights/src/animation.hpp:80-90 | every tick keeps each filled slot `2m` at `origin + m` and `2m + 1` at `origin - m`, in the animation's colour |
| XiaoAnimation.TickKeepsLit | src/xiao-lights/src/animation.hpp:80-90 | every slot of the pairs written so far stays lit after a tick, and a step that does not wrap the step counter lights no fewer pairs, so the lit part grows outwards from the origin |
| XiaoAnimation.LightsAroundOrigin | src/xiao-lights/src/animation.hpp:81-87 | every light shown lies in positions 26 to 74 and is green for a win, red for a loss |
| XiaoAnimation.NewIsWellPainted | src/xiao-lights/src/animation.hpp:12-20 | a new animation's buffer is well painted |
| XiaoAnimation.WriteSchedule | src/xiao-lights/src/animation.hpp:80-90 | pair `m` is first written on the step that runs `10 (m + 1) + 1` iterations |
| XiaoAnimation.FinishesAfterTotal | src/xiao-lights/src/animation.hpp:93-98 | an animation first ticked at a nonzero time is done after a tick 3000 ms later, not before |
| XiaoLevel.New | src/xiao-lights/src/level.hpp:17-41 | the constructor's scan places one obstacle per accepted character of the layout line, at its index, below the boundary and before the first `'\0'` or line break; the player is new and the level in progress |
| XiaoLevel.Default | src/xiao-lights/src/level.hpp:43 | `Level()` has no obstacles, boundary 0, no animation and is in progress |
| XiaoLevel.Fold | src/xiao-lights/src/level.hpp:107-116 | threading a message through the obstacles keeps their number; which message each obstacle sees is stated by `XiaoLevel.FoldFramesEachOnce` |
| XiaoLevel.Framed | src/xiao-lights/src/level.hpp:82-135 | a finished level keeps its player, obstacles and state, ticks its animation and shows the ticked animation's lights (or shows nothing without one); a running level frames the player, then every obstacle in order; the message out of the last obstacle decides: a movement keeps the level running with the obstacles' lights then the player's, `GoalReached` completes it and `ObstacleCollision` fails it, each with a cleared light list and a new `MiddleOut` animation (green or red) |
| XiaoLevel.Frame | src/xiao-lights/src/level.hpp:82-135 | the in-place obstacle loop computes `Framed` |
| XiaoLevel.FoldFramesEachOnce | src/xiao-lights/src/level.hpp:107-116 | obstacle `k` is framed exactly once, with the message the obstacles before it produced, and stays in slot `k` |
| XiaoLevel.FoldPassesThrough | src/xiao-lights/src/level.hpp:108-109 | a collision or a goal message passes every later obstacle unchanged |
| XiaoLevel.FirstTransformerWins | src/xiao-lights/src/level.hpp:107-132 | the first obstacle in layout order that replaces the player's movement decides the level's outcome |
| XiaoLevel.FoldLightsBounded | src/xiao-lights/src/level.hpp:111-113 | the obstacles add at most one light each |
| XiaoLevel.RunningFrameLights | src/xiao-lights/src/level.hpp:107-120 | a frame that keeps the level running shows at most one light per obstacle and then exactly the player's light, last, at its new position |
| XiaoLevel.LayoutStopsAtLineBreak | src/xiao-lights/src/level.hpp:30-33 | nothing after the first line break of the layout reaches the level |
| XiaoLevel.LayoutWithinBound | src/xiao-lights/src/level.hpp:30-40 | every pawn and snake placed stands below the boundary, with its origin at its position |
| XiaoLevel.GoalAtStartCompletes | src/xiao-lights/src/level.hpp:122-126 | a goal on square 0 completes the level on the first frame, with a green animation |
| XiaoLevel.StateInProgressUntilAnimationDone | src/xiao-lights/src/level.hpp:76-80 | `state()` is `IN_PROGRESS` until the completion animation exists and is done |
| XiaoMain.Step | src/xiao-lights/src/main.cpp:55-80 | one parser iteration counts one iteration, moves the read position forward and never moves the stage back past field 3 |
| XiaoMain.RunStops | src/xiao-lights/src/main.cpp:54 | the parser loop ends at a `']'`, after `max_len` iterations or after 255, whichever comes first |
| XiaoMain.ParseMessage | src/xiao-lights/src/main.cpp:46-84 | the character loop computes `Parsed`, the iteration relation run to its end, with the third field narrowed to `uint8_t` |
| XiaoMain.UnreachedStayZero | src/xiao-lights/src/main.cpp:72-78 | a field the parser has not reached stays 0 |
| XiaoMain.NoBracketNoFields | src/xiao-lights/src/main.cpp:57-60 | a payload whose `'['` is never reached parses to `(0, 0, 0)` |
| XiaoMain.PrefixSkipped | src/xiao-lights/src/main.cpp:54-80 | characters before the `'['` are skipped one per iteration and contribute nothing |
| XiaoMain.ParseRoundTrip | src/xiao-lights/src/main.cpp:46-84 | the decimal payload `[a\|b\|c]`, after up to 200 other non-bracket characters and within `max_len`, parses back to `(a, b, c mod 256)`; what follows `']'` is never read |
| XiaoMain.ParseAt | src/xiao-lights/src/main.cpp:46-84 | the same round trip for a payload found at position `h` of the buffer |
| XiaoMain.FindLineEnd | src/xiao-lights/src/main.cpp:119-121 | the scan stops at the first `'\n'` at or after its start |
| XiaoMain.MeasureLine | src/xiao-lights/src/main.cpp:122-127 | the measuring loop stops at the line's `'\n'` and counts its length modulo 256 |
| XiaoMain.CountLevels | src/xiao-lights/src/main.cpp:128-138 | the level count is 1 plus every `'\n'` after the first level, modulo 65536 |
| XiaoMain.SkipLines | src/xiao-lights/src/main.cpp:199-213 | the rotation walk skips `index + 1` lines, each up to and past its `'\n'` |
| XiaoMain.LoadFirst | src/xiao-lights/src/main.cpp:118-138 | the first level is built from the line after the header with its measured size and 146 pixels, and the levels are counted |
| XiaoMain.MoveIndex | src/xiao-lights/src/main.cpp:191-197 | the new index is `NextIndex`: the next level on success, level 0 on failure or past the last level |
| XiaoMain.LoadRotated | src/xiao-lights/src/main.cpp:199-221 | the level loaded after a result is built from where the rotation walk stops, with the measured size |
| XiaoMain.Runner.constructor | src/xiao-lights/src/main.cpp:36-42 | the globals start with a default level, no input, setup not complete and both counters 0 |
| XiaoMain.Runner.Receive | src/xiao-lights/src/main.cpp:87-91 | a received payload is parsed with the received length and kept as the pending input; nothing else changes |
| XiaoMain.Runner.Setup | src/xiao-lights/src/main.cpp:118-153 | setup loads the first level and the level count; it completes exactly when esp-now starts and there is at least one level |
| XiaoMain.Runner.Loop | src/xiao-lights/src/main.cpp:155-223 | without setup nothing changes; otherwise the level is updated with the pending input, which is dropped; a pending level is kept; a level with a result is replaced by the level at `NextIndex`, which is below the level count, loaded by the rotation walk |
| XiaoLevelText.LineEnd | src/xiao-lights/src/main.cpp:119-121 | the scan stops on a `'\n'` at or after its start |
| XiaoLevelText.LineEndFirst | src/xiao-lights/src/main.cpp:119-121 | the scan passes no `'\n'` before it stops |
| XiaoLevelText.LineEndMin | src/xiao-lights/src/main.cpp:204-206 | the scan stops at or before any `'\n'` after its start |
| XiaoLevelText.Skip | src/xiao-lights/src/main.cpp:203-213 | after skipping at least one line the walk stands just past a `'\n'` |
| XiaoLevelText.CountNewlines | src/xiao-lights/src/main.cpp:133-138 | a text has no more newlines than characters; the count on a file of lines is stated by `XiaoLevelText.CountJoin` |
| XiaoLevelText.CountJoin | src/xiao-lights/src/main.cpp:133-138 | a file of lines, each without a newline inside and each ended by `'\n'`, holds exactly as many newlines as lines, which is what the level count counts |
| XiaoLevelText.CountNewlinesAppend | src/xiao-lights/src/main.cpp:133-138 | the newlines of two texts add up |
| XiaoLevelText.NextIndex | src/xiao-lights/src/main.cpp:191-197 | the new index is below the level count (or 0 with no levels); failure returns to 0; success moves on to the next level, or back to 0 after the last |
| XiaoLevelText.SuccessesCycle | src/xiao-lights/src/main.cpp:191-197 | winning every level plays the levels in file order and starts over after the last: after `q` rounds and `r` more wins the index is `r` |
| XiaoLevelText.RotationSkipsFirstCharacter | src/xiao-lights/src/main.cpp:210-215 | going back to level 0 starts one character later than `setup` did: the level line loses its first character and its size drops by one |
| XiaoLevelText.FileSetup | src/xiao-lights/src/main.cpp:118-138 | on a well-formed file `setup` reads the first layout line in full and counts every layout, modulo 65536 |
| XiaoLevelText.FileRotation | src/xiao-lights/src/main.cpp:199-221 | on a well-formed file the rotation to level `k` reads layout line `k` without its first character |
| XiaoController.Classify | src/xiao-controller/src/main.cpp:177-182 | an axis reading is 1 exactly above 3200, 2 exactly below 1200, and 0 in between |
| XiaoController.NormaliseZ | src/xiao-controller/src/main.cpp:189-200 | the button is 1 exactly when the pin reads 1, or 0 when built for a normally-open button |
| XiaoController.Frame | src/xiao-controller/src/main.cpp:202-205 | the 120-character content starts with the `[x\|y\|z]` text and is `'\0'` after it |
| XiaoController.FrameText | src/xiao-controller/src/main.cpp:203 | a frame of classified readings is seven characters, one digit per field |
| XiaoController.NextFailedCount | src/xiao-controller/src/main.cpp:207 | a successful send keeps the failure count; a failed one doubles it and adds one |
| XiaoController.FailuresDouble | src/xiao-controller/src/main.cpp:207 | `k` failed sends in a row from 0 leave the count at `2^k - 1` |
| XiaoController.SeventhFailureDisconnects | src/xiao-controller/src/main.cpp:207-215 | six failures in a row keep the count within 100; the seventh takes it to 127, past it |
| XiaoController.PeerAddress | src/xiao-controller/src/main.cpp:90-99 | the peer address is the scanned BSSID with its last byte one less (wrapping) |
| XiaoController.FirstHost | src/xiao-controller/src/main.cpp:84-87 | the scan picks the first network named `xiao-runner-light-host`, or none if there is none |
| XiaoController.Controller.constructor | src/xiao-controller/src/main.cpp:39-47 | the controller starts disconnected, with no failures and an all-zero address |
| XiaoController.Controller.CopyAddress | src/xiao-controller/src/main.cpp:90-99 | the copy loop writes the peer address into the six-byte array |
| XiaoController.Controller.Connect | src/xiao-controller/src/main.cpp:78-165 | no host: nothing changes; a host: its address is taken, then more than 30 failed polls leave it disconnected, esp-now or peer failure fails it, and otherwise it is connected with the count reset |
| XiaoController.Controller.Send | src/xiao-controller/src/main.cpp:167-215 | sends the frame of the classified readings, updates the failure count, and disconnects exactly when it passes 100 |
| XiaoController.Controller.Loop | src/xiao-controller/src/main.cpp:69-234 | a failed controller stays failed and silent; only a connected one sends, without touching the address; the controller only fails while connecting |
| BeetleMain.Step | src/beetle-lights/src/main.cpp:40-58 | one parser iteration counts one iteration, moves the read position forward and never moves the stage back past field 2 |
| BeetleMain.RunStops | src/beetle-lights/src/main.cpp:39 | the parser loop ends at a `']'`, after `max_len` iterations or after 255, whichever comes first |
| BeetleMain.ParseMessage | src/beetle-lights/src/main.cpp:32-62 | the character loop computes `Parsed`, the iteration relation run to its end |
| BeetleMain.UnreachedStayZero | src/beetle-lights/src/main.cpp:52-56 | a field the parser has not reached stays 0 |
| BeetleMain.UnreachedFieldsZero | src/beetle-lights/src/main.cpp:42-56 | without a reached `'['` both fields are 0, and without a reached `'\|'` the right field is 0 |
| BeetleMain.PrefixSkipped | src/beetle-lights/src/main.cpp:39-59 | characters before the `'['` are skipped one per iteration and contribute nothing |
| BeetleMain.ParsePair | src/beetle-lights/src/main.cpp:32-62 | `[A\|B]` after non-bracket characters, within the iteration limits, reads as the accumulated values of `A` and `B`, whatever follows |
| BeetleMain.ParseRoundTrip | src/beetle-lights/src/main.cpp:32-62 | the two-field decimal payload `[a\|b]` parses back to `(a, b)` |
| BeetleMain.ThreeFields | src/beetle-lights/src/main.cpp:47-56 | the three-field payload `[a\|b\|c]` reads `a` correctly but folds the second `'\|'` and `c` into the right field |
| BeetleMain.ThreeFieldsExample | src/beetle-lights/src/main.cpp:47-56 | `"[1\|2\|0]"` reads as `(1, 960)` |
| BeetleMain.FoldedSeparator | src/beetle-lights/src/main.cpp:55 | a one-digit `y`, a `'\|'` and a one-digit `z` accumulate to `100 y + 760 + z` |
| Decimal.Dec | src/xiao-controller/src/main.cpp:203 | `%d` writes at least one digit, and exactly one for values below 10 |
| Decimal.ValueOfDec | src/xiao-controller/src/main.cpp:203 | the digits `%d` writes denote the value |
| Decimal.DecLengthU32 | src/xiao-controller/src/main.cpp:203 | a `uint32_t` prints in at most ten digits |
| Decimal.AccAllValue | src/xiao-lights/src/main.cpp:73-77 | the wrapping accumulator gives the digits' value modulo 2^32 |
| Decimal.RoundTrip | src/xiao-lights/src/main.cpp:73-77 | a `uint32_t` written with `%d` is accumulated back exactly |
| Wire.ControllerToXiaoLights | src/xiao-lights/src/main.cpp:87-91 | the xiao lights read back exactly the controller's classified readings, and every such x reading turns the player left |
| Wire.XiaoReadsFrame | src/xiao-lights/src/main.cpp:46-84 | the xiao parser reads a controller frame back as its three readings |
| Wire.ControllerToBeetleLights | src/beetle-lights/src/main.cpp:64-68 | the beetle lights read the controller's x correctly, but their right field is `100 y + 760 + z`, never `y` |
| Wire.BeetleReadsFrame | src/beetle-lights/src/main.cpp:32-62 | the beetle parser reads a controller frame as `(x, 100 y + 760 + z)` |
| BeetlePlayer.Update | src/beetle-lights/src/player.hpp:64-152 | ten light slots; a dead player shows nothing, reports square 0 and stays dead; a live one stays alive, shows one light in slot 0 and reports its position; it moves along its previous facing when the movement timer fires, which is then fresh and otherwise ticked; facing follows the x axis against 1000/3000; an attack starts only from idle on an attack byte, and on its first frame the attack timer is baselined and the idle timer is fresh; while attacking the idle timer is fresh every frame, the attack timer is ticked, and the attack ends when it fires, with a fresh attack timer; outside an attack the idle timer is ticked and the attack timer is untouched |
| BeetlePlayer.Apply | src/beetle-lights/src/player.hpp:162-169 | a collision kills the player; any other message leaves it unchanged |
| BeetlePlayer.DeathIsFinal | src/beetle-lights/src/player.hpp:70-72 | a dead player stays dead; a live player dies exactly when a collision is applied |
| BeetlePlayer.AttackCycle | src/beetle-lights/src/player.hpp:83-138 | idle → attacking (attack sample) → recovering 1000 ms later → idle 2000 ms after the debuff timer starts |
| BeetlePlayer.ShowsOneLight | src/beetle-lights/src/player.hpp:140-146 | a live player shows exactly its own light, at its position and coloured by state |
| BeetleObstacle.Updated | src/beetle-lights/src/obstacle.hpp:99-154 | a corpse stays a corpse and shows nothing; an enemy shows one light in slot 0 where it stood before stepping, keeps its origin, and makes one patrol step (the xiao pawn's rule) exactly when its timer fires |
| BeetleObstacle.Update | src/beetle-lights/src/obstacle.hpp:99-113 | the clearing loop and the visitor compute `Updated`; the interaction is always `NONE` |
| BeetleObstacle.PatrolPreserved | src/beetle-lights/src/obstacle.hpp:139-147 | an enemy away from the ends of the `uint32_t` range stays within 11 squares of its origin |
| BeetleObstacle.EnemyShowsOneLight | src/beetle-lights/src/obstacle.hpp:132-133 | an enemy shows exactly one light, red, at its position before the step |
| BeetleTypes.Cleared | src/beetle-lights/src/player.hpp:68 | a cleared buffer has every slot empty |
| BeetleTypes.ShownCleared | src/beetle-lights/src/player.hpp:68 | a cleared buffer shows nothing |
| BeetleTypes.ShownFirstOnly | src/beetle-lights/src/player.hpp:146 | a buffer whose only filled slot is the first shows exactly that renderable |
| BeetleLevel.Default | src/beetle-lights/src/level.hpp:21-28 | `Level()` is valid, with result 0, the new player, every obstacle slot empty, a 100-slot light buffer that shows nothing, and the losing animation not yet done |
| BeetleLevel.Initial | src/beetle-lights/src/level.hpp:30-50 | the layout constructor gives a valid level |
| BeetleLevel.New | src/beetle-lights/src/level.hpp:30-50 | the constructor's loop fills the first slots in order with one obstacle per non-space character before the first line break and within `size` characters, at its one-based position; the other slots stay default |
| BeetleLevel.PlacementsOneBased | src/beetle-lights/src/level.hpp:39-49 | every placed token is a non-space, non-line-break character of the layout at its one-based column within the first `size` columns |
| BeetleLevel.Packed | src/beetle-lights/src/level.hpp:16 | the light buffer keeps its 100 slots; what it shows is stated by `BeetleLevel.ShownPacked` |
| BeetleLevel.Fold | src/beetle-lights/src/level.hpp:108-124 | threading the message through the slots keeps their number; the lights collected are stated by `BeetleLevel.FoldShownPrefix` and `BeetleLevel.PlayerLightLast` |
| BeetleLevel.Updated | src/beetle-lights/src/level.hpp:81-146 | validity is kept; a decided level only ticks its animation and shows its lights; a playing level updates the player, then every obstacle slot in order, applies the final message to the player, and shows the obstacles' lights then the player's; a dead player ends it lost (result 1, red animation), a goal message ends it won (result 2, green), otherwise it keeps playing |
| BeetleLevel.AppendShown | src/beetle-lights/src/level.hpp:113-120 | a copy loop appends a buffer's filled slots, in order, after the lights already written |
| BeetleLevel.ShownPrefixBounded | src/beetle-lights/src/level.hpp:113-120 | a prefix of a buffer shows no more than the whole buffer |
| BeetleLevel.Update | src/beetle-lights/src/level.hpp:81-146 | the loops of `update` compute `Updated` |
| BeetleLevel.FoldShownPrefix | src/beetle-lights/src/level.hpp:108-124 | the lights collected grow with the slots updated |
| BeetleLevel.ShownPacked | src/beetle-lights/src/level.hpp:118-136 | when they fit, the buffer shows exactly the frame's lights, in order |
| BeetleLevel.ResultIsFinal | src/beetle-lights/src/level.hpp:87-100 | a decided level keeps its result, player and obstacles for ever |
| BeetleLevel.CompleteOnlyWhenDecided | src/beetle-lights/src/level.hpp:76-78 | a level is only complete once it has been decided |
| BeetleLevel.CollisionLoses | src/beetle-lights/src/level.hpp:128-143 | a collision reported through the slots kills the player, and the level ends lost with the red animation |
| BeetleLevel.CompletesAfterAnimation | src/beetle-lights/src/level.hpp:139-143 | a decided level becomes complete on the first update at least 3000 ms after the next one, and not before |
| BeetleLevel.PlayerLightLast | src/beetle-lights/src/level.hpp:131-137 | a frame that leaves the player alive shows every obstacle light in slot order, then the player's single light at its new position |

## Left out

- Radio and pairing are inputs, not modelled operations. This covers the Wi-Fi scan
  (a list of networks), the connection polls (the number of not-yet-connected
  readings), the esp-now init, add-peer and send results (booleans and an integer),
  and the receive callback's `memcpy` (the model receives the 120 characters).
- LED output, pins, `delay`, `millis` and logging are left out. Timestamps and
  readings are parameters.
- The heap and stack debug timer in the xiao-lights `loop` is left out, because it
  only logs.
- The beetle-lights `setup`, `loop` and receive callback are not modelled; of that file
  only `parse_message` is. The beetle-controller, `engine.hpp` (a stub) and the
  controller's `load_env.py` build script are not part of this model.
- interaction.hpp is not part of this model. `Interaction` has only the `NONE` value
  that the beetle obstacle returns.
- The `SWAP_XY_POSITION` and `BUTTON_NORMAL_OPEN` build flags are covered as
  follows. `BUTTON_NORMAL_OPEN` is a parameter. `SWAP_XY_POSITION` only swaps which
  pin feeds which axis, so it is not modelled. The overridable tolerances
  `X_TOLERANCE_LOWER` and `X_TOLERANCE_UPPER` are fixed at their defaults,
  1200 and 3200.
- C++ ownership (`unique_ptr`, moves, `mutable`) is not modelled: every entity is a
  value, so aliasing between old and new objects is not captured. The xiao animation's
  total timer is ticked in place, so the model keeps the ticked timer even on the tick
  that finishes the animation.
- The beetle `Timer(amount)` leaves `_last_time` uninitialised. `BeetleTimer.New`
  takes it to be 0, the "not started" value.
- Text is `seq<char>`. Each character is read by its code, as an unsigned `char`
  would be. A read past the end of the given text returns `'\0'`, as in a
  NUL-terminated buffer.
- The controller's `message_payload.content` is modelled as the frame text followed
  by `'\0'`. The firmware only clears the first 40 bytes on each send, but it never
  writes past them.
- BeetleLevel.New: requires at most ten placed tokens, because the ten-slot obstacle
  array is written without a bounds check.
- BeetleLevel.Update: requires the frame's lights to fit the 100-slot light buffer
  (`Fits`), because writes past it are undefined.
- XiaoMain.Runner.Setup: requires the levels file to hold a header line and a first
  level line, both ended by `'\n'` (`SetupReadable`). A scan that runs past
  `level_data_end` reads memory the model does not have.
- XiaoMain.Runner.Loop: requires, once setup is complete, at most 255 levels and a
  file that holds every line the rotation walk reads (`Rotates`). With more than 255
  levels the index can reach 255, and the walk's `uint8_t level_index` can never
  pass it, so the walk never ends.
- XiaoMain.LoadRotated and XiaoMain.SkipLines: the same requirement as the loop, for
  one index.
- XiaoController.Controller.Loop: on the connecting and sending paths, this method
  does not restate the new mode or failure count. `XiaoController.Controller.Connect`
  and `XiaoController.Controller.Send` state them. The loop itself states only that a
  controller fails while connecting, never while connected.
