# AnotherRound simulation kernel in Dafny

This project models the game-simulation kernel of AnotherRound, a small top-down arcade shooter. A player moves and shoots on a 1200 × 700 field that holds static and destructible obstacles. The model covers three parts of that kernel.

- **Movement** (`movement.dfy`) models the per-tick displacement of a movable object. The object's own move vector is computed first. When the object takes part in collisions, the reactions to every obstacle that collides with a prospective copy are folded in, in vault order. The copy is placed using the initial move vector and is built once. The result is then checked against the field bounds, axis by axis. `CheckMoveWithFieldBounds` is a pure function (`ClampAxis` per axis). `CalculateMoveVector` is a method whose `foreach` loop over the obstacles is proved against the specification fold `ReactFold`.
- **Destructible obstacle** (`square_removable.dfy`) is the class `SquareRemovable`. It has a location, a size and a health counter. `GetHit` decrements the counter in place. `IsDead` is `HealthPoints <= 0`. Health is a C# `int`, so the decrement wraps at the least `int`, and the model writes that wrap out.
- **Field** (`field.dfy`) is the class `Field`, the tick orchestrator. `GameTick` runs four phases in order: projectiles, the vault's own moving, shooting, and the player's move. It then invokes the end-of-game event if the player is dead. The projectile list, the obstacle vault and the player are opaque states, and their operations are uninterpreted functions (`Collaborators`). A tick is specified by the pure function `Tick`, and a sequence of ticks by `Run`. `Player()` is the vault's player, `playerOf(vault)`. Each tick of the shell's timer calls `Controller.ExecuteContrloller(Field)`; `Controller` is not part of this model, and the method `Play` assumes that call runs `GameTick` once with the commands it derives. `Play` is proved to end where `Run` does. The event is a flag saying whether a handler is subscribed, plus a counter of how many times it fired.

`geometry.dfy` holds the shared primitives. Vector coordinates are exact reals. Sizes are integers, as in `System.Drawing.Size`. `Half` models C#'s `int / 2`, which truncates toward zero.

## Model

| member | source | states |
|---|---|---|
| Movement.ClampAxis | GameModel/GameStateAndPhysics/PhysicsAndMath/Movement.cs:33-37 | one axis of the check: the result is the move, the displacement onto `W - w/2`, or `Loc - w/2`; the last exactly on a lower underflow; without an underflow the centre never passes `W - w/2` |
| Movement.CheckMoveWithFieldBounds | GameModel/GameStateAndPhysics/PhysicsAndMath/Movement.cs:26-46 | a move that keeps the centre within bounds on both axes comes back unchanged; for `0 <= w <= W`, an object starting at or past `w/2` (resp. `h/2`) stays there on that axis |
| Movement.ClampInsideKeepsMove | GameModel/GameStateAndPhysics/PhysicsAndMath/Movement.cs:28-37 | a move that keeps the centre within `[w/2, W - w/2]` on an axis is returned unchanged |
| Movement.ClampUpperSnapsToEdge | GameModel/GameStateAndPhysics/PhysicsAndMath/Movement.cs:33-34 | an upper overflow without a lower underflow puts the centre exactly on `W - w/2` |
| Movement.ClampLowerIgnoresMove | GameModel/GameStateAndPhysics/PhysicsAndMath/Movement.cs:36-37 | a lower underflow returns `Loc - w/2` whatever the move was; an object sitting on `w/2` and pushing outward gets 0 |
| Movement.ClampBothFireLowerWins | GameModel/GameStateAndPhysics/PhysicsAndMath/Movement.cs:33-37 | both checks fire only when `W - w/2 < w/2` (so `W < w` for `w >= 0`), and then the lower assignment, run last, decides |
| Movement.ClampBounds | GameModel/GameStateAndPhysics/PhysicsAndMath/Movement.cs:33-43 | for `0 <= w <= W` and a start at or above `w/2`, the new coordinate stays at or above `w/2`; without an underflow it stays at or below `W - w/2` |
| Movement.AxesIndependent | GameModel/GameStateAndPhysics/PhysicsAndMath/Movement.cs:28-45 | the X result depends only on the X inputs and the Y result only on the Y inputs |
| Movement.LowerClampOvershoots | GameModel/GameStateAndPhysics/PhysicsAndMath/Movement.cs:36-37 | as written, the lower branch leaves an object at 35 instead of 25 (x = 30, move -10, w = 50), and can throw it past the upper edge (x = 1000, move -1000 ends at 1975 > 1175) |
| Movement.ClampIntendedStaysInside | GameModel/GameStateAndPhysics/PhysicsAndMath/Movement.cs:33-43 | with the lower branch mirrored, the centre always ends within `[w/2, W - w/2]` and lands on the edge it would have crossed |
| Movement.ClampIntendedAgrees | GameModel/GameStateAndPhysics/PhysicsAndMath/Movement.cs:36-37 | the written and intended checks agree except on a lower underflow from a start off the lower edge |
| Movement.ReactFoldIsReactionsOfColliding | GameModel/GameStateAndPhysics/PhysicsAndMath/Movement.cs:17-21 | the fold equals `ReactOnCollision` applied, in obstacle order, to exactly the obstacles colliding with the prospective copy |
| Movement.ReactFoldNoCollision | GameModel/GameStateAndPhysics/PhysicsAndMath/Movement.cs:19-20 | when no obstacle collides with the copy, the move vector is left as it was |
| Movement.ReactFoldAppend | GameModel/GameStateAndPhysics/PhysicsAndMath/Movement.cs:17-21 | the running vector is threaded through the obstacles: folding over `a + b` folds `b` from the result for `a` |
| Movement.ReactAllAppend | GameModel/GameStateAndPhysics/PhysicsAndMath/Movement.cs:20 | applying reactions over `a + b` applies those of `b` to the result of those of `a` |
| Movement.CalculateMoveVector | GameModel/GameStateAndPhysics/PhysicsAndMath/Movement.cs:10-24 | without collision, the result is the bound check of `GetMoveVector(vault)` and reactions are never consulted; with collision, it is the bound check of the reaction fold over `GetAllObstacles()`, always tested against the copy built from the initial vector |
| Removables.Decrement | GameModel/Removables/SquareRemovable.cs:23 | `HealthPoints--` on a C# `int` gives `n - 1` modulo 2^32 within the `int` range; with no wrap, exactly `n - 1` |
| Removables.HealthAfterHitsValue | GameModel/Removables/SquareRemovable.cs:13-24 | after `k` hits from health `h` (no wrap), health is `h - k`, and the obstacle is dead iff `k >= h` |
| Removables.DeadStaysDead | GameModel/Removables/SquareRemovable.cs:13-24 | health goes down by exactly the number of further hits, and a dead obstacle stays dead under any number of them (no floor on the counter) |
| Removables.WrapRevives | GameModel/Removables/SquareRemovable.cs:23 | the only way back from death is the wrap at the least `int`: `2^31 + 1` hits from 0 give the greatest `int` |
| Removables.DeathHit | GameModel/Removables/SquareRemovable.cs:13 | `IsDead` (`HealthPoints <= 0`) is false exactly when health is positive and the obstacle dies at its `HealthPoints`-th further hit and not before; a dead one stays dead after another hit unless the counter wraps |
| Removables.SquareRemovable.constructor | GameModel/Removables/SquareRemovable.cs:14-19 | location, size and health are stored unchanged; the new obstacle is dead iff the given health is `<= 0` |
| Removables.SquareRemovable.GetHit | GameModel/Removables/SquareRemovable.cs:21-24 | health decreases by exactly one (wrapping at the least `int`), a dead obstacle stays dead, location and size are unchanged |
| GameField.OutOfField | GameModel/GameStateAndPhysics/Field.cs:39-45 | an object is out of the field (edges count as inside) iff the bound check would move it while it stands still |
| GameField.Field.IsOutOfField | GameModel/GameStateAndPhysics/Field.cs:39-45 | the field's own check against its `FieldSize`: out iff the bound check would move the object while it stands still |
| GameField.InFieldMoveUnclamped | GameModel/GameStateAndPhysics/Field.cs:39-45 | for an object that starts on the field, the bound check leaves a move unchanged iff the moved object is not out of the field (`IsOutOfField`, edges inside) |
| GameField.RunSignalsAtMostOnePerTick | GameModel/GameStateAndPhysics/Field.cs:29-30 | over any sequence of ticks the end-of-game notification fires at most once per tick |
| GameField.RunSignalsEveryDeadTick | GameModel/GameStateAndPhysics/Field.cs:29-30 | there is no one-shot latch: with the player dead after every tick, the notification fires on every tick |
| GameField.RunSignalsOnlyWhenDead | GameModel/GameStateAndPhysics/Field.cs:29-30 | with the player alive after every tick, the notification never fires |
| GameField.DeadTicksStep | GameModel/GameStateAndPhysics/Field.cs:29-30 | one more tick adds that tick to the dead ticks exactly when the player is dead after it |
| GameField.RunSignalsCountDeadTicks | GameModel/GameStateAndPhysics/Field.cs:29-30 | the notification count over a run equals the number of ticks after which the player is dead |
| GameField.RunAppend | GameModel/GameStateAndPhysics/Field.cs:22-31 | ticks compose: a run split in two is the second part run from where the first ended, and the notification counts add up |
| GameField.Field.constructor | GameModel/GameStateAndPhysics/Field.cs:12-20 | field size is 1200 × 700, the projectile list is new, the vault is the test level with the player placed at the start position with size 50 × 50, and no handler is subscribed |
| GameField.Field.SubscribeEndGame | GameModel/GameStateAndPhysics/Field.cs:11 | subscribing a handler changes nothing but the subscription |
| GameField.Field.ExecuteAllProjectiles | GameModel/GameStateAndPhysics/Field.cs:54-57 | the projectile list runs with the field size and the vault; it may change both |
| GameField.Field.TryShoot | GameModel/GameStateAndPhysics/Field.cs:59-62 | the projectile list receives the shoot command's X and Y unaltered and the current player; the vault is untouched |
| GameField.Field.MovePlayer | GameModel/GameStateAndPhysics/Field.cs:72-75 | the player moves with the move command's X and Y unaltered, the vault and the field size; the projectiles are untouched |
| GameField.Field.ExecuteVaultMoving | GameModel/GameStateAndPhysics/Field.cs:25 | the vault moves its own objects within the field size; the projectiles are untouched |
| GameField.Field.GameTick | GameModel/GameStateAndPhysics/Field.cs:22-31 | the phases run in the order projectiles, vault moving, shoot, move player (`Tick`); the field size never changes; the event fires iff the player is dead after the move phase, once per such tick; with no handler a dying tick ends in the null-event failure |
| GameField.Play | ApplicationForm/MainForm.cs:80-84 | assuming each timer tick's controller call runs `GameTick` once, ticking a field whose end-of-game event has a handler once per input ends in `Run`'s state, its notification count grows by `Run`'s count, and its size is unchanged |

## Findings

| source | as written | input that shows it | evidently intended | confidence | as-written member | corrected member |
|---|---|---|---|---|---|---|
| GameModel/GameStateAndPhysics/PhysicsAndMath/Movement.cs:36-37 (and 42-43 for Y) | a lower underflow sets the displacement to `Location - Size/2`, which pushes the object away from the edge by as much as it stands inside the field | field 1200 wide, object 50 wide at x = 30 with move -10: it ends at 35, not 25; at x = 1000 with move -1000 it ends at 1975, past the upper edge 1175 | `Size/2 - Location`, the mirror of the upper branch, which snaps the centre onto the lower edge | high (not executed) | Movement.LowerClampOvershoots | Movement.ClampIntendedStaysInside |

The operations (`CheckMoveWithFieldBounds` and `CalculateMoveVector`) keep the branch as written, because they model what the program does. `Movement.ClampAxisIntended` is the corrected per-axis check. `Movement.ClampIntendedAgrees` states exactly where it differs from the written one.

## Left out

- `ApplicationForm/MainForm.cs` is the window, timer, painting and key handling, plus the restart dialog. It is user interface and I/O. The only parts used here are that the shell subscribes a handler before ticking, which `Run` and `Play` assume, and that each timer tick calls `Controller.ExecuteContrloller(Field)`. `Controller` is not part of this model, and `Play` assumes that this call runs `GameTick` once with the commands it derives.
- GameField.Play: ticks are taken to run one after another and never nested. The subscribed handler opens a modal dialog while the timer may still be running. A tick re-entered from inside the handler on the same field is not modelled.
- `ProjectileList`, `MapObjectsVault` (including `GenerateTestLevel` and `ExecuteMoving`), `Player` (including `DoPlayerMove` and `IsDead`), `Physics.CollisionTwoAbstract`, `Controller` and the `ICanMove` implementations are not part of this model. They are uninterpreted functions over opaque states, so no collision formula, projectile speed, purge rule or death rule is stated.
- Movement.CalculateMoveVector: `GetMoveVector`, `GetCopyWithNewLocation`, `ReactOnCollision` and `Physics.CollisionTwoAbstract` are modelled as effect-free functions, and the movable's location and size as fixed values. Damage a reaction may apply, and any change to the movable's location or size or to the obstacle collection during the loop, are not captured. The final bound check reads the location and size as they were before the loop.
- Aliasing of the `Player` object: the player is reached only through the vault (`playerOf`). A change that a collaborator makes to the player through another reference shows up only as a change of the vault state that collaborator returns. `TryShoot` is modelled as changing only the projectile list.
- The base-class `SquareObstacle` fields that `SquareRemovable` hides with `new` are not part of this model, because the base class is not part of it.
- `EndGameEvent` multicast semantics: the model records whether a handler is subscribed and counts invocations. It does not model several handlers or unsubscribing.
- The level number that the shell passes to `Field` does not match the `Field(Vector)` constructor, so level selection is left out.
- `Vector` coordinates are exact reals, so floating-point rounding in the comparisons of `CheckMoveWithFieldBounds` is not modelled.
- Removables.DeadStaysDead: states "dead stays dead" only while the counter does not wrap past the least `int`. `WrapRevives` shows the case where it fails.
