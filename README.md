# Wacky Races: round and entity lifecycle, in Dafny

This project models the core of Wacky Races, a small Unity race game. In the game, rounds of monsters run across the screen from left to right.

- **Round controller** (`RoundService`). Each round asks the entity registry for `Fibonacci(Round)` monsters, starting at round 4. It then counts three seconds down and fires the race.
- **Entity registry** (`EntityService`). It takes monster objects from a pool and gives each a fresh id, a lane and a draw rank. It tracks the monsters by id and counts exits off the round. An exited monster is released back to the pool once its one-second grace timer has run out.
- **Older registry draft** (`Services/GameService`). It spawns a fixed batch of 20 monsters over three lanes.
- **Scene service** (`Services/Scenes/GameService`). It lays out the lanes and forwards every frame to the round controller.
- **Other parts**: the monster's movement and exit test, the `Entity` and `Actor` base classes, the camera edge arithmetic, and the growth function in both of its variants.

Modules, one per concern:

| module | models |
|---|---|
| `MathHelper` | `MathHelper.Fibonacci`, recursive (compiled) and iterative (`#else`), on 32-bit `int` |
| `CameraUtilities` | screen size in world units, left and right edge of the view |
| `Entities` | `Entity`, `Actor`, `Monster` (Awake placement, per-frame movement, exit test, destroy) |
| `Spawning` | what both registries share: the random draws of a spawn, the setup of a monster, the batch a spawn creates, the pending-removal sweep |
| `Lanes` | `GetYPositionsForLines` (identical in both GameService files) |
| `Registry` | `EntityService` as a class |
| `LegacyGame` | the older `Services/GameService` as a class |
| `Rounds` | `RoundService` as a class, with its countdown as a pure step function |
| `SceneGame` | `Services/Scenes/GameService` as a class |

These are modelling choices:

- Unity `float` is `real`.
- C# `int` is the subset type `int32`, and additions that can overflow wrap explicitly.
- `Time.deltaTime` is a parameter `dt`.
- Every `Random.Range` draw of a spawn is a `SpawnRoll` value whose ranges are preconditions.
- `Camera.main` is a `CameraView` value.
- Inside a registry, a monster is the `MonsterSetup` value it was initialised with.
- The pool is its count of checked-out objects.
- Both tables are keyed by monster id.
- Exceptions the code can raise on reachable inputs are an `Outcome`: `Threw(NullReference)`, `Threw(IndexOutOfRange)` or `Threw(DuplicateKey)`. Each is modelled together with the state changes made before the throw.

## Model

| member | source | states |
|---|---|---|
| `MathHelper.Int32Wrap` | Assets/Scripts/Commons/Helpers/MathHelper.cs:11 | an in-range value is unchanged; a value just above `int.MaxValue` loses exactly 2^32 and one just below `int.MinValue` gains exactly 2^32 |
| `MathHelper.Fibonacci` | Assets/Scripts/Commons/Helpers/MathHelper.cs:6-12 | the compiled recursive variant every round's count goes through: n itself for n ≤ 1, otherwise the 32-bit wrapped sum of the two before; what it computes is stated by `FibonacciIsFib`, `FibonacciExactIff` and `FibonacciWrapsAt47` |
| `MathHelper.FibonacciIterative` | Assets/Scripts/Commons/Helpers/MathHelper.cs:14-31 | the loop variant returns the compiled variant's value for every n ≥ 0 (invariant a = F(i-2), b = F(i-1)) and 1 for every n < 0 |
| `MathHelper.FibAround32Bits` | Assets/Scripts/Commons/Helpers/MathHelper.cs:11 | F(46) = 1836311903 fits in `int`; F(47) does not |
| `MathHelper.FibonacciIsFib` | Assets/Scripts/Commons/Helpers/MathHelper.cs:6-12 | for 0 ≤ n ≤ 46 the compiled variant is exactly the Fibonacci sequence (no addition wraps) |
| `MathHelper.FibonacciExactIff` | Assets/Scripts/Commons/Helpers/MathHelper.cs:6-12 | for n ≥ 0, the compiled variant equals the true Fibonacci number if and only if n ≤ 46 |
| `MathHelper.FibonacciWrapsAt47` | Assets/Scripts/Commons/Helpers/MathHelper.cs:11 | at n = 47 the compiled variant returns F(47) − 2^32, which is negative |
| `MathHelper.FibonacciMonotone` | Assets/Scripts/Commons/Helpers/MathHelper.cs:11 | on 0 ≤ m ≤ n ≤ 46 the result is non-negative and non-decreasing |
| `MathHelper.VariantsDisagreeBelowZero` | Assets/Scripts/Commons/Helpers/MathHelper.cs:8-30 | for n < 0 the compiled variant returns n itself, never the iterative variant's 1 |
| `MathHelper.FibSmallValues` | Assets/Scripts/Commons/Helpers/MathHelper.cs:6-12 | F(4) = 3 and F(5) = 5, the spawn counts of the first two rounds, among other small values |
| `CameraUtilities.CalculateScreenHeightInWorldUnits` | Assets/Scripts/Utilities/CameraUtilities.cs:13-18 | the orthographic size is half the height; the height is non-negative with the size |
| `CameraUtilities.CalculateScreenWidthInWorldUnits` | Assets/Scripts/Utilities/CameraUtilities.cs:24-31 | half the width is size × aspect; the width is non-negative when both are |
| `CameraUtilities.GetStartPosition` | Assets/Scripts/Utilities/CameraUtilities.cs:38-45 | the left edge lies half a screen width left of the camera, with y = z = 0 |
| `CameraUtilities.GetEndPosition` | Assets/Scripts/Utilities/CameraUtilities.cs:52-59 | the right edge lies one width right of the left edge, the camera is their midpoint, and y = z = 0 |
| `CameraUtilities.EdgesOrdered` | Assets/Scripts/Utilities/CameraUtilities.cs:38-59 | with non-negative size and aspect: start.x ≤ camera x ≤ end.x |
| `Entities.Translated` | Assets/Scripts/Entities/Actor.cs:13-16 | a translation along `Vector3.right` changes x by the distance and keeps y and z |
| `Entities.TranslatedByFrame` | Assets/Scripts/Entities/Actor.cs:15 | a zero speed or a zero dt leaves the position as it was; positive speed and dt strictly increase x |
| `Entities.Exited` | Assets/Scripts/Entities/Monster.cs:60-64 | the exit test: the sprite's left edge, x minus half its width, lies strictly right of the view's right edge |
| `Entities.Displacement` | Assets/Scripts/Entities/Monster.cs:41-48 | displacement × setting = screen width × dt (the setting is an inverse speed) |
| `Entities.LargerSettingIsSlower` | Assets/Scripts/Entities/Monster.cs:44 | a larger speed setting gives a strictly smaller positive displacement |
| `Entities.DisplacementForward` | Assets/Scripts/Entities/Monster.cs:41-48 | with a non-negative screen width and frame time a frame's displacement is non-negative, so `TravelNeverBack` and `StaysOut` apply to a monster's frames |
| `Entities.TravelNeverBack` | Assets/Scripts/Entities/Monster.cs:46 | frames with non-negative displacement never decrease x |
| `Entities.StaysOut` | Assets/Scripts/Entities/Monster.cs:60-64 | the strict exit test, once true, stays true over any further forward frames |
| `Entities.Entity.constructor` | Assets/Scripts/Entities/Entity.cs:9-15 | Id defaults to 0; the state starts at the enum default |
| `Entities.Entity.Move` | Assets/Scripts/Entities/Entity.cs:33-37 | only the position changes, and only its x, by speed × dt |
| `Entities.Entity.CalculateSpeedVariation` | Assets/Scripts/Entities/Entity.cs:43-47 | the value lies between MovementSpeed / 1.5 and MovementSpeed × 1.5 (in whichever order they fall) |
| `Entities.Entity.ChangeState` | Assets/Scripts/Entities/Entity.cs:53-57 | the state becomes the argument, whatever it was, and no other field changes |
| `Entities.Actor.constructor` | Assets/Scripts/Entities/Actor.cs:5-6 | Id defaults to 0 |
| `Entities.Actor.Move` | Assets/Scripts/Entities/Actor.cs:13-16 | x grows by speed × dt; y, z and every other field keep their values |
| `Entities.Monster.constructor` | Assets/Scripts/Entities/Monster.cs:9-12 | the speed setting defaults to 5 |
| `Entities.Monster.Awake` | Assets/Scripts/Entities/Monster.cs:17-28 | x = start.x + (spriteWidth + 2) / 2, y = z = 0, and the sprite width is read from the body |
| `Entities.Monster.MovementProcess` | Assets/Scripts/Entities/Monster.cs:41-48 | the returned speed × setting = screen width; the position is translated by one frame's `Displacement` |
| `Entities.Monster.IsOut` | Assets/Scripts/Entities/Monster.cs:60-64 | out exactly when the sprite's left edge is strictly right of camera x plus half the screen width |
| `Entities.Monster.Update` | Assets/Scripts/Entities/Monster.cs:30-39 | the monster moves first; it is destroyed exactly when the exit test holds on the new position; y and z are unchanged; with a non-negative view and frame time x never decreases |
| `Entities.Monster.Out` | Assets/Scripts/Entities/Monster.cs:66-69 | the object is destroyed |
| `Spawning.ValidRoll` | Assets/Scripts/Services/EntityService.cs:62-70 | the ranges of the engine's draws: speed in [2, 10], hues and shade in [0, 1], rarity roll in [0, 100), lane in [0, len) (0 when len = 0) |
| `Spawning.IsRare` | Assets/Scripts/Services/EntityService.cs:66 | a monster is rare when its roll is at least 90 |
| `Spawning.RareOneInTen` | Assets/Scripts/Services/EntityService.cs:66 | exactly 10 of the 100 integer rolls in [0, 100) make a monster rare |
| `Spawning.SortLayer` | Assets/Scripts/Services/EntityService.cs:70-75 | a lane in [0, len) gets a rank in [0, len); lane 0 has the top rank and the last lane has rank 0 (both directions) |
| `Spawning.SortLayerReversesLanes` | Assets/Scripts/Services/EntityService.cs:75 | ranks strictly reverse the lane order |
| `Spawning.Setup` | Assets/Scripts/Services/EntityService.cs:59-77 | the arguments of `Monster.Initialization`: the given id; y is exactly the height of the rolled lane and z = 0; the rolled speed, hues and shade are passed on unchanged; x is half a sprite right of the view's left edge; rank + lane = len − 1; speed in [2, 10] for a valid roll; rare exactly when the roll is ≥ 90 |
| `Spawning.Batch` | Assets/Scripts/Services/EntityService.cs:59-80 | a spawn of k rolls creates exactly the ids firstId … firstId+k−1, and the i-th roll gives the monster with id firstId+i |
| `Spawning.BatchAddsOnePerRoll` | Assets/Scripts/Services/EntityService.cs:80 | added to a table whose ids are all below firstId, a batch adds exactly one entry per roll, so `Add` never meets a taken id |
| `Spawning.Swept` | Assets/Scripts/Services/EntityService.cs:110-131 | after a sweep an entry is pending if and only if its timer minus dt is still positive, and it then holds that lowered timer |
| `Spawning.DecrementTimers` | Assets/Scripts/Services/EntityService.cs:115-124 | the first sweep loop lowers every timer by dt and collects exactly the entries at zero or below |
| `Spawning.GraceDelay` | Assets/Scripts/Services/EntityService.cs:94-131 | over a run of sweeps an entry stays pending if and only if the frame times add up to less than its timer, and its timer is then lowered by that sum |
| `Spawning.SweptAllOnlyRemoves` | Assets/Scripts/Services/EntityService.cs:126-130 | sweeps never bring back an entry that is gone |
| `Lanes.LaneHeight` | Assets/Scripts/Services/Scenes/GameService.cs:43-50 | lane i of n: the last lane sits the tolerance below the top edge, every other lane (i + 1)/(n + 1) of the way up from the bottom edge |
| `Lanes.LaneHeights` | Assets/Scripts/Services/Scenes/GameService.cs:35-54 | n heights; the last one is topEdge − tolerance, and every other one i is bottomEdge + h/(n+1)·(i+1) |
| `Lanes.GetYPositionsForLines` | Assets/Scripts/Services/Scenes/GameService.cs:35-54 | a fresh array; it has `numberOfLines` entries and its contents are exactly `LaneHeights` |
| `Lanes.LaneInside` | Assets/Scripts/Services/Scenes/GameService.cs:47-50 | with h > 0 every lane but the last lies strictly between the bottom and top edges, for any lane count |
| `Lanes.LanesClimb` | Assets/Scripts/Services/Scenes/GameService.cs:47-50 | with h > 0 the lanes other than the last climb strictly with their index |
| `Lanes.GameLanes` | Assets/Scripts/Services/Scenes/GameService.cs:64-66 | the game's three lanes sit at y − h/4, y and y + h/2 − 0.66825, and climb strictly once h > 2 × 0.66825 |
| `Registry.EntityService.constructor` | Assets/Scripts/Services/EntityService.cs:9-20 | both tables are empty, the counters are 0, and no height array is assigned |
| `Registry.EntityService.LaneLookup` | Assets/Scripts/Services/EntityService.cs:70-71 | the lane draw succeeds if and only if an array is assigned and it is non-empty; a missing array is a null reference |
| `Registry.EntityService.Initialization` | Assets/Scripts/Services/EntityService.cs:24-28 | the heights are stored and nothing else changes |
| `Registry.EntityService.Spawn` | Assets/Scripts/Services/EntityService.cs:30-34 | the count becomes exactly n, even when n ≤ 0; tracked monsters stay; max(n, 0) new monsters are created, so the table grows by exactly that many |
| `Registry.EntityService.CreateMonsters` | Assets/Scripts/Services/EntityService.cs:36-45 | n ≤ 0 does nothing; otherwise exactly the `Batch` of n rolls is added under ids counting up from the old counter; without usable heights the first creation throws and stops the rest |
| `Registry.EntityService.CreateMonster` | Assets/Scripts/Services/EntityService.cs:52-81 | pool +1 and id +1 always; on success the monster is added under the old counter value with its `Setup`; a throw leaves the table unchanged |
| `Registry.EntityService.GenerateEntityId` | Assets/Scripts/Services/EntityService.cs:83-86 | post-increment: it returns the counter and raises it by one |
| `Registry.EntityService.RemoveMonster` | Assets/Scripts/Services/EntityService.cs:88-92 | only that id leaves the table; one object goes back to the pool |
| `Registry.EntityService.OnMonsterOut` | Assets/Scripts/Services/EntityService.cs:94-103 | a new exit is pending with timer 1.0 and the count drops by exactly 1 with no floor, wrapping to `int.MaxValue` at `int.MinValue` as C#'s unchecked `--` does; a repeat throws and changes nothing |
| `Registry.EntityService.Update` | Assets/Scripts/Services/EntityService.cs:47-50 | one tick is one sweep |
| `Registry.EntityService.MonsterRemoveProcess` | Assets/Scripts/Services/EntityService.cs:110-131 | the pending table becomes `Swept`; exactly the expired ids leave the monster table and go back to the pool; the ids-below-counter and positive-timer invariant holds |
| `Registry.EntityService.ReleaseExpired` | Assets/Scripts/Services/EntityService.cs:126-130 | the collected ids leave both tables and the pool count drops by their number |
| `LegacyGame.GameService.constructor` | Assets/Scripts/Services/GameService.cs:11-13 | both tables are empty and the id counter is 0 |
| `LegacyGame.GameService.Initialization` | Assets/Scripts/Services/GameService.cs:26-39 | 3 lanes with tolerance 0.66825; exactly the 20-roll `Batch` on those lanes is added; ids and pool count rise by 20 |
| `LegacyGame.GameService.Update` | Assets/Scripts/Services/GameService.cs:41-44 | one tick is one sweep |
| `LegacyGame.GameService.CreateMonster` | Assets/Scripts/Services/GameService.cs:46-78 | the same creation on the given lanes; the rank is len−1−lane; an empty array throws after the id and the pool object are spent |
| `LegacyGame.GameService.IsOut` | Assets/Scripts/Services/GameService.cs:80-84 | the draft's exit test is the monster's own strict test |
| `LegacyGame.GameService.MonsterRemoveProcess` | Assets/Scripts/Services/GameService.cs:107-128 | the pending table becomes `Swept`; exactly the expired ids are removed and released |
| `LegacyGame.GameService.ReleaseExpired` | Assets/Scripts/Services/GameService.cs:123-127 | the collected ids leave both tables and the pool count drops by their number |
| `LegacyGame.GameService.GenerateId` | Assets/Scripts/Services/GameService.cs:130-133 | post-increment, so ids come out as 0, 1, 2, … |
| `LegacyGame.GameService.RemoveMonster` | Assets/Scripts/Services/GameService.cs:135-139 | only that id leaves the table; one object goes back to the pool |
| `LegacyGame.GameService.OnMonsterOut` | Assets/Scripts/Services/GameService.cs:141-144 | a new exit is pending with timer 1.0 and no counter exists; a repeat throws and changes nothing |
| `Rounds.CeilToInt` | Assets/Scripts/Services/RoundService.cs:41 | the least integer not below x |
| `Rounds.ClockValid` | Assets/Scripts/Services/RoundService.cs:51-54 | the countdown invariant: 0 ≤ timer < 3, and the timer is 0 whenever the controller is ready |
| `Rounds.TimeStep` | Assets/Scripts/Services/RoundService.cs:32-59 | no change while ready; it fires if and only if it was waiting and timer + dt ≥ 3, and then resets to ready with timer 0; the countdown never rises and only ever takes ceil(3 − timer); 0 ≤ timer < 3 with ready ⇒ timer = 0 is preserved for dt ≥ 0 |
| `Rounds.FiresOnceAfterDelay` | Assets/Scripts/Services/RoundService.cs:51-58 | between two round starts the race fires at most once, never when ready, and, when waiting, if and only if the accumulated time reaches 3 |
| `Rounds.RoundService.constructor` | Assets/Scripts/Services/RoundService.cs:6-19 | round 4, ready, timer 0, countdown 0 |
| `Rounds.RoundService.Initialization` | Assets/Scripts/Services/RoundService.cs:21-24 | the registry, if any, receives the heights and nothing else of it changes |
| `Rounds.RoundService.Update` | Assets/Scripts/Services/RoundService.cs:26-30 | the registry's sweep (pending table `Swept`, expired monsters removed and released) and then one `TimeStep` of the countdown with Fire called exactly when it fires; the registry's heights, id counter and round count and the round are unchanged |
| `Rounds.RoundService.TimeProcess` | Assets/Scripts/Services/RoundService.cs:32-59 | the countdown fields become `TimeStep` of the old ones; Fire is called exactly when the step fires |
| `Rounds.RoundService.StartRound` | Assets/Scripts/Services/RoundService.cs:61-66 | the registry spawns `Fibonacci(Round)` with its whole new state (count, the added `Batch`, ids and pool count up by the batch size, or by one with the table unchanged on a throw; heights and pending table unchanged); on success the controller is waiting with countdown 4; the timer and the round are untouched; a throw leaves the countdown fields as they were |
| `Rounds.RoundService.Fire` | Assets/Scripts/Services/RoundService.cs:68-71 | one call of the registry's Fire hook when there is a registry |
| `Rounds.RoundService.EndRound` | Assets/Scripts/Services/RoundService.cs:73-79 | the round rises by exactly one (as an `int`) and the next round starts with the new count: the registry's new state is as after `StartRound` |
| `Rounds.RoundCountsGrow` | Assets/Scripts/Services/RoundService.cs:61-79 | from round 4 to 46 each round's count is the exact Fibonacci number, positive and no smaller than the previous round's |
| `SceneGame.GameService.constructor` | Assets/Scripts/Services/Scenes/GameService.cs:11-21 | no heights until initialisation |
| `SceneGame.GameService.Initialization` | Assets/Scripts/Services/Scenes/GameService.cs:23-67 | the heights are 3 lanes with tolerance 0.66825, computed before the round controller passes them to the registry, whose tables, counters and pool count stay as they were |
| `SceneGame.GameService.Update` | Assets/Scripts/Services/Scenes/GameService.cs:30-33 | it only forwards the tick to the round controller, whose new countdown, Fire calls and registry state are as after `RoundService.Update`, and changes nothing without one |

## Behaviour of the code worth knowing

The model follows the code on each of these points.

- **The exit count has no floor.** `OnMonsterOut` (Assets/Scripts/Services/EntityService.cs:94-103) decrements `_currentCount` unconditionally, so the count can go negative after repeated or late exits.
- **A repeat exit notification throws.** `_monstersToRemove.Add` (Assets/Scripts/Services/EntityService.cs:96) raises on a monster already pending; the model returns `Threw(DuplicateKey)` and changes nothing.
- **Starting a round keeps the timer.** `StartRound` (Assets/Scripts/Services/RoundService.cs:61-66) sets `_isSpawnReady` and `_lastCountdown` but leaves `_spawnDelayTimer` alone, so a round started mid-countdown keeps the elapsed time.
- **Fire calls a missing method.** `RoundService.Fire` (Assets/Scripts/Services/RoundService.cs:68-71) calls an `EntityService.Fire` that the registry does not define; the model counts those calls.
- **Nothing ends a round.** The registry's end-of-round call is commented out (Assets/Scripts/Services/EntityService.cs:99-102), and `RoundService.Initialization` (Assets/Scripts/Services/RoundService.cs:21-24) passes `EndRound` to an `EntityService.Initialization` that takes only the heights. `EndRound` is therefore an operation a caller invokes.
- **Nothing starts a round.** The public `RoundService.StartRound` (Assets/Scripts/Services/RoundService.cs:61-66) is called only from `EndRound` (line 78), which nothing reaches; the scene service calls only `Initialization` and `Update` (Assets/Scripts/Services/Scenes/GameService.cs:23-33). In the program as shown no round ever spawns; the model treats `StartRound` as an operation a caller invokes.
- **An empty lane array fails late.** `CreateMonster` (Assets/Scripts/Services/EntityService.cs:52-81) reads `_spawnHeights` only at its lane lookup (lines 70-71), after a pool object is taken and an id is spent; the monster is then never tracked.
- **Round counts overflow at round 47.** The compiled `Fibonacci` (Assets/Scripts/Commons/Helpers/MathHelper.cs:6-12) adds 32-bit `int`s; it is exact up to round 46 and returns a negative count at round 47.
- **Any state change is allowed.** `ChangeState` (Assets/Scripts/Entities/Entity.cs:53-57) assigns whatever state it is given; nothing keeps the state from going back.
- **A monster destroys itself on exit.** `Monster.Out` (Assets/Scripts/Entities/Monster.cs:66-69) destroys the object; it raises no notification to the registry.

## Left out

- The pool (PoolService) is left out beyond its count of checked-out objects. Its capacity limits and its active flags live in Unity's `ObjectPool`.
- The UI (GameView, UIHelper), scene lookups (`LoadComponents`, `GameObject.Find`), parenting and scaling of transforms, and `Debug.Log` messages are left out. They are presentation only.
- The monster's animation, its colour swap (`AnimationProcess`, `SetColorSwap`, `LateUpdate`) and the other visual effects are rendering only.
- `Monster.Initialization`, `OutEvent`, `SpriteWidth` and `BodyRenderer` are used by the registries but not defined in the monster shown.
  - A registry's monster is the `MonsterSetup` value it would be initialised with.
  - The `OutEvent` subscription is not modelled: `OnMonsterOut` is an operation a caller invokes with the monster's id.
- `var aa` in the older `CreateMonster` is computed and never used, so it is not modelled.
- Float rounding: every `float` is an exact `real`.
- 64-bit `long` ids are unbounded integers. Wrap-around after 2^63 spawns is not modelled.
- Pending tables keyed by the monster object are keyed by its id. Ids are unique among handed-out objects, so the two keyings agree.
- `ConcurrentDictionary` is a plain map. All access is single-threaded, and iteration order is left arbitrary.
- Inheritance (`Monster : Actor`) is flattened: each class carries the fields it reads.
- `Transform.Translate` is modelled as a shift in world x. This assumes an unrotated transform under an unscaled parent.
- Entities.Monster.MovementProcess: requires a positive speed setting. A setting of 0 edited into the scene would divide by zero and give an infinite speed; a negative setting would move the monster left, so it would never exit. Neither case is modelled.
- Entities.Monster.Update: requires that the object is not yet destroyed, because the engine no longer calls `Update` on a destroyed object.
- Entities.Entity.CalculateSpeedVariation: the engine's draw is a parameter t in [0, 1]. The bound on the result is stated, not the distribution.
- MathHelper.FibonacciIterative: the loop counter is unbounded. For n = `int.MaxValue` the C# counter `i` wraps and the loop never ends; the model's loop stops.
- Lanes.GetYPositionsForLines: requires a non-negative line count, where C# throws on `new float[n]` with n < 0. The method is private and always called with 3.
- Registry.EntityService.CreateMonsters: the source recurses once per monster (Assets/Scripts/Services/EntityService.cs:36-45); the model runs the same calls as a loop, so stack depth, pool capacity and memory limits are not modelled, although counts up to F(46) ≈ 1.8·10^9 are admitted.
- Registry.EntityService.Spawn: requires one `SpawnRoll` per monster with draws in the engine's ranges, because `Random.Range` guarantees them.
- Rounds.RoundService.StartRound: requires as many rolls as `Fibonacci(Round)` asks for, for the same reason.
- Rounds.RoundService.Update: the registry is advanced before the countdown, as in the source. The two parts change disjoint state, so no contract tells the order apart.
- LegacyGame.GameService.Initialization: the contract gives the added `Batch` rather than the table size. The size, 20 more entries, follows from `Spawning.BatchAddsOnePerRoll`.
- The scene's lane array is shared by reference with the registry in C#. Here it is passed as a value, and nobody writes to it after it is computed.
