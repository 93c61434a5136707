# Logic Farm Roguelike: the pig economy and player movement, in Dafny

This project models the part of the game that has state and rules:

- **Pigs.** Pressing Space buys a pig for 10 money. The pig appears 32 units right of the player. It lives for a 30-second one-shot timer. In the frame that timer finishes, the pig is sold for 15 and despawned.
- **Player movement.** Held W/S and D/A keys become a movement request. W beats S and D beats A. When both axes move, both are scaled by 1/√2 so a diagonal step is no longer than a straight one.
- **Wall contacts.** After the controller moves the player, the game reports which of the touched entities are walls.

Modules:

- `Engine` (`engine.dfy`): the engine's value types. These are entities, vectors, transforms and the keyboard snapshot.
- `Timing` (`timing.dfy`): the engine's `Timer` in one-shot mode. Durations are integer nanoseconds, like Rust's `Duration`. A tick adds the frame delta and clamps the elapsed time at the duration. A timer is finished once elapsed reaches duration, and a finished timer ignores later ticks. The timer belongs to the engine library, so its source is not part of this model. This behaviour is an assumption about it.
- `Game` (`game.dfy`): the starting money and player, key decoding, diagonal normalisation, the player movement system writing the character controller, and the wall filter.
- `Pigs` (`pigs.dfy`): the pig systems, in two forms.
  - Pure transition functions over a `FarmState`. `FarmState` holds the money, the pigs in spawn order, and the next free entity handle.
  - A `Farm` class whose `SpawnPig` and `PigLifetime` methods update those fields in place. Each method is proved equal to its transition function.

  `PigLifetime` ticks every timer in place and records each finished pig's entity for despawn. It applies the despawns after the loop, as the engine applies deferred commands at the end of the stage.

Choices made in the model:

- Money is an `int`. Every amount the game uses (100, 10, 15) is a whole number, and `f32` holds such sums exactly below 2^24.
- Movement amounts are `real`. `FRAC_1_SQRT_2` is a parameter `factor`. Properties that need its value assume `factor > 0` and `factor * factor == 1/2` (`Game.IsDiagonalFactor`).
- The pig parent's children and the pig entity pool are one sequence. Every pig is spawned as a child of the single parent and removed from both at once.
- Entity handles come from a counter. `Pigs.Valid` keeps them increasing along the pool and below the counter. It also says no expired pig is left in the pool, so no pig can be sold twice.
- The frame delta, the key snapshot, the player's transform and the controller's collision list are parameters. They are the engine's and the physics library's outputs.

Facts about the code that the model keeps:

- Opposite keys do not cancel: W is checked before S, and D before A.
- The code has no wander or evasion behaviour: `detect_player_collisions` has an empty loop body, and `display_contact_info` always returns `None`.
- The timer keeps elapsed time against a duration, as the engine's `Timer` does.
- The game does not fix the order of `spawn_pig` and `pig_lifetime` within a frame. The model therefore also covers any interleaving of purchases and lifetime ticks, as a sequence of `Pigs.Event`s: `Buy(input, player)` or `Frame(delta)`.

## Model

| member | source | states |
|---|---|---|
| `Timing.Tick` | src/pig.rs:131-133 | A tick keeps the duration and never lowers the elapsed time. The timer is finished afterwards exactly when its elapsed time plus the delta reaches the duration. An unfinished timer has counted the whole delta. Elapsed never passes the duration. |
| `Timing.FromSeconds` | src/pig.rs:62 | A new one-shot timer has nothing elapsed and is within its duration. It is already finished exactly when it was made for 0 seconds, so the 30-second pig timer starts unfinished. |
| `Timing.RunFinished` | src/pig.rs:131-133 | Over any sequence of frame deltas, a timer finishes exactly when its elapsed time plus the total of the deltas reaches its duration. Before that, it has counted every delta. |
| `Pigs.SpawnStep` | src/pig.rs:38-75 | The state changes exactly when Space was just pressed and money is at least 10. On a spawn:<br>• money drops by exactly 10;<br>• exactly one pig is appended and the existing pigs are untouched;<br>• the new pig has a fresh handle;<br>• its translation is the player's with x + 32 and y, z unchanged, with the player's rotation and scale;<br>• its lifetime is 30 s with nothing elapsed. |
| `Pigs.SpawnConservesMoney` | src/pig.rs:48-49 | A spawn adds at most one pig. Money changes by exactly −10 per pig added. A non-negative balance stays non-negative. |
| `Pigs.SpawnKeepsValid` | src/pig.rs:54-73 | Spawning keeps handles distinct and ordered, keeps every timer within its duration, and adds no expired pig. |
| `Pigs.Farm.constructor` | src/main.rs:56 | The game starts with money 100, no pigs, and a valid state. |
| `Pigs.Farm.SpawnPig` | src/pig.rs:30-76 | The spawn system's update of money and pigs equals `SpawnStep`. It preserves `Valid`. |
| `Pigs.Farm.PigLifetime` | src/pig.rs:121-142 | The loop ticks each timer in place, credits 15 per finished timer, and despawns those pigs after the loop. The result equals `LifetimeStep` and preserves `Valid`. |
| `Pigs.LifetimeStep` | src/pig.rs:121-142 | One lifetime tick never adds a pig and leaves the handle counter alone. Money rises by exactly 15 per pig removed. |
| `Pigs.LifetimeRemovesExactlyExpired` | src/pig.rs:130-137 | After one lifetime tick, each pig stays, with its timer ticked by the delta, exactly when that timer did not finish. Nothing else is in the pool, and nothing left is expired. |
| `Pigs.LifetimeKeepsValid` | src/pig.rs:130-141 | A lifetime tick keeps handles distinct and ordered, timers within their duration, and no expired pig in the pool. |
| `Pigs.RunPaysPerRemoval` | src/pig.rs:130-141 | Over a run of lifetime ticks with no purchase in between, the state stays valid. Money rises by exactly 15 per pig gone, so each pig pays out exactly once. |
| `Pigs.RunPigsComeFromStart` | src/pig.rs:130-137 | After a run of lifetime ticks with no purchase in between, every pig in the pool is an original pig whose timer was ticked by every delta of the run. |
| `Pigs.PigLeavesWhenTimeIsUp` | src/pig.rs:131-137 | With no purchase in between: a pig, its timer ticked by every delta, is still in the pool after a run of lifetime ticks exactly when its elapsed time plus the run's total is below its duration. So it is removed in the first frame that reaches the duration. |
| `Pigs.ApplyKeepsValid` | src/pig.rs:30-142 | Either system, run on a valid state, leaves a valid state. |
| `Pigs.BuyKeeps` | src/pig.rs:54-74 | A purchase keeps every pig already in the pool. |
| `Pigs.PlayAccounts` | src/pig.rs:30-142 | Over any mix of purchases and lifetime ticks, the state stays valid. Money equals the start balance + 15 per pig gone − 10 per pig bought. The pigs bought are the handles handed out, and the pigs gone are the start pigs plus those bought minus the final pool. |
| `Pigs.PigLeavesAmidPurchases` | src/pig.rs:131-137 | Over any mix of purchases and lifetime ticks, a pig present at the start stays in the pool exactly while its elapsed time plus the total of the frame deltas is below its duration. Its timer is ticked by every frame delta. |
| `Pigs.SpawnedPigLivesThirtySeconds` | src/pig.rs:62 | A pig just bought is in the pool after any later mix of purchases and lifetime ticks exactly when the frame deltas total less than 30 s. |
| `Pigs.FirstPurchase` | src/pig.rs:45-49 | From the start state, pressing Space leaves money 90 and one pig, 32 units right of the player. |
| `Pigs.PurchaseRefused` | src/pig.rs:48 | With money 5, pressing Space changes nothing. |
| `Pigs.FirstPigSold` | src/pig.rs:133-137 | After the first purchase, once the frames total at least 30 s, the pool is empty and money is 105. |
| `Game.TargetY` | src/main.rs:176-182 | W gives +amount and wins over S. S alone gives −amount. Neither key gives 0. |
| `Game.TargetX` | src/main.rs:184-190 | D gives +amount and wins over A. A alone gives −amount. Neither key gives 0. |
| `Game.Normalized` | src/main.rs:215-220 | A vector with a zero axis is unchanged. With a non-zero factor, an axis is zero afterwards exactly when it was zero before. |
| `Game.MovementRequest` | src/main.rs:174-194 | Without W/S the request is (x, 0). Without D/A it is (0, y). Both are unscaled. With both axes held, both are scaled by the factor. x comes from D/A and y from W/S. |
| `Game.NormalizeDiagonal` | src/main.rs:215-220 | Both amounts, taken as (y, x), are multiplied by the factor exactly when both are non-zero. Otherwise both are unchanged. |
| `Game.NormalizedKeepsSigns` | src/main.rs:215-220 | With a positive factor, normalisation never flips an axis's sign and never makes an axis zero or non-zero. |
| `Game.PlayerMovement` | src/main.rs:168-195 | The controller's translation is set to the request for amount = speed × frame seconds. The request is x from D/A and y from W/S, after normalisation. |
| `Game.MovementDirection` | src/main.rs:176-194 | For a positive amount:<br>• x > 0 exactly when D is held;<br>• x < 0 exactly when A is held without D;<br>• y > 0 exactly when W is held;<br>• y < 0 exactly when S is held without W.<br>Opposite keys do not cancel, and the (y, x) helper order swaps nothing. |
| `Game.MovementLength` | src/main.rs:215-218 | With the factor's square one half:<br>• the request's squared length is amount² whenever any movement key is held, and 0 otherwise;<br>• on a diagonal, each component's square is amount²/2. |
| `Game.UpRightForOneSecond` | src/main.rs:174-194 | Holding W and D for 1 s at the starting speed of 100 requests (100·factor, 100·factor). Each component is between 70.71 and 70.72, and the squared length is 10000. |
| `Game.CharacterController.constructor` | src/main.rs:149 | A fresh controller requests no translation. |
| `Game.WallContacts` | src/main.rs:203-211 | Every reported entity is a wall. There are never more reports than contacts. |
| `Game.PlayerHitWall` | src/main.rs:201-212 | Nothing is reported while the controller has no output. Otherwise the reports are the wall contacts of its collision list. |
| `Game.WallContactsCount` | src/main.rs:203-210 | Each wall is reported exactly as many times as it appears among the contacts, duplicates included. A non-wall is never reported. |
| `Game.WallContactsInOrder` | src/main.rs:203-210 | The reports are a subsequence of the contacts' entities: collision order is kept. |

## Left out

- Rendering and engine set-up are not modelled: the texture atlas, sprites, asset loading, window, camera and `camera_follow`. None of them touches the modelled state.
- Rapier physics is not modelled: physics set-up, collider sizes, collision resolution, and the pig controller's initial translation (0.01, 0) and `up` vector. The physics library is foreign code; its collision list is an input.
- `display_contact_info` is not modelled. It only reads the physics context and logs, and it always returns `None`.
- `detect_player_collisions` is not modelled. Its loop body is empty, so the only thing it can do is panic when there is not exactly one player.
- Pig wander and evasion are not modelled: the code has none.
- The UI module and the world inspector are not part of this model. Neither is the Escape key that toggles the inspector.
- Panics are not modelled. The `single()` and `expect("1 Player")` calls panic when the player or the pig parent is missing or duplicated. The model receives the player's transform as a parameter instead.
- The order of `spawn_pig` and `pig_lifetime` within a frame is not fixed by the model. Each system is its own operation, and `Pigs.Play` takes any interleaving of them.
- The engine spawns a new pig at the end of the frame. `SpawnStep` adds the pig at once, so if `LifetimeStep` ran after it in the same frame, the model would tick the new pig one frame early.
- The order in which the engine's pig query visits pigs is not modelled. The model visits pigs in spawn order. The visiting order only changes the order of log lines, because payouts are added up.
- `f32` rounding is not modelled: not in money, not in `speed * delta_seconds`, and not in `FRAC_1_SQRT_2`. No claim about floating-point error is made.
- The timer's paused state and repeating mode are not modelled: the game never uses them.
- Logging (`info!`, `println!`) and entity names are not modelled.
- `Game.MovementDirection` assumes a positive movement amount. With a negative speed or frame time every sign flips, and with a zero amount nothing moves.
