/** The simulation root: one tick runs the projectiles, the vault's own
    movement, the shooting and the player's move, in that order, and then
    raises the end-of-game notification if the player is dead. */
module GameField {
  import opened Geometry
  import Movement

  /** A processed direction of input: each coordinate is usually -1, 0 or 1. */
  datatype ControlCommand = ControlCommand(x: int, y: int)

  /** The phases of a tick, in the order a tick runs them. */
  datatype Phase = ProjectilesPhase | VaultMovingPhase | ShootPhase | MovePlayerPhase

  /** What a tick ends with: the game goes on, the end-of-game handler ran,
      or the player died while no handler was subscribed, so invoking the
      null event throws. */
  datatype TickOutcome = Continued | GameEnded | NullEndGameEvent

  /** The collaborators the field drives, whose code is not part of this
      model: the projectile list, the obstacle vault and the player, each an
      opaque state, and their operations as uninterpreted functions. */
  datatype Collaborators<!Projectiles, !Vault, !Player> = Collaborators(
    /** `new ProjectileList()` */
    emptyProjectiles: Projectiles,
    /** `MapObjectsVault.GenerateTestLevel()` */
    testLevel: Vault,
    /** the vault with `Player = new Player(location, size)` */
    placePlayer: (Vault, Vector, Size) -> Vault,
    /** `MapObjectsVault.Player` */
    playerOf: Vault -> Player,
    /** `Player.IsDead` */
    isDead: Player -> bool,
    /** `ProjectileList.ExecuteAllProjectiles(fieldSize, vault)`: moves the
        shots and may hit obstacles of the vault */
    executeAllProjectiles: (Projectiles, Size, Vault) -> (Projectiles, Vault),
    /** `MapObjectsVault.ExecuteMoving(fieldSize)` */
    executeMoving: (Vault, Size) -> Vault,
    /** `ProjectileList.TryShoot(x, y, player)` */
    tryShoot: (Projectiles, int, int, Player) -> Projectiles,
    /** `Player.DoPlayerMove(x, y, vault, fieldSize)`: the player lives in
        the vault, so moving it changes the vault */
    doPlayerMove: (Vault, int, int, Size) -> Vault)

  /** The part of the field's state that a tick changes. */
  datatype World<Projectiles, Vault> = World(projectiles: Projectiles, vault: Vault)

  /** The commands the shell hands to one tick. */
  datatype TickInput = TickInput(moveCommand: ControlCommand, shootCommand: ControlCommand)

  /** The fixed field bounds. */
  const FieldDimensions: Size := Size(1200, 700)

  /** The size the player is created with. */
  const PlayerSize: Size := Size(50, 50)

  /** An object of `objectSize` centred at `location` sticks out of a field of
      `fieldSize` on at least one side; lying exactly on an edge is inside. */
  predicate OutOfField(location: Vector, objectSize: Size, fieldSize: Size)
    ensures OutOfField(location, objectSize, fieldSize) <==>
            Movement.CheckMoveWithFieldBounds(Vector(0.0, 0.0), fieldSize, location, objectSize) != Vector(0.0, 0.0)
  {
    location.x > UpperEdge(fieldSize.width, objectSize.width) ||
    location.x < LowerEdge(objectSize.width) ||
    location.y > UpperEdge(fieldSize.height, objectSize.height) ||
    location.y < LowerEdge(objectSize.height)
  }

  /** For an object that starts on the field, the bound check leaves its
      move unchanged exactly when the moved object is still on the field. */
  lemma InFieldMoveUnclamped(move: Vector, fieldSize: Size, location: Vector, size: Size)
    requires !OutOfField(location, size, fieldSize)
    ensures Movement.CheckMoveWithFieldBounds(move, fieldSize, location, size) == move
            <==> !OutOfField(location.Plus(move), size, fieldSize)
  {
  }

  /** The state after one tick from `w`: the four phases composed in order,
      each seeing what the earlier ones left. */
  function Tick<Projectiles, Vault, Player>(c: Collaborators<Projectiles, Vault, Player>, w: World<Projectiles, Vault>,
                                            fieldSize: Size, input: TickInput): World<Projectiles, Vault>
  {
    var (shotsMoved, vaultHit) := c.executeAllProjectiles(w.projectiles, fieldSize, w.vault);
    var vaultMoved := c.executeMoving(vaultHit, fieldSize);
    var shotsFired := c.tryShoot(shotsMoved, input.shootCommand.x, input.shootCommand.y, c.playerOf(vaultMoved));
    var vaultFinal := c.doPlayerMove(vaultMoved, input.moveCommand.x, input.moveCommand.y, fieldSize);
    World(shotsFired, vaultFinal)
  }

  /** Whether the player is dead in `w`. */
  predicate PlayerDead<Projectiles, Vault, Player>(c: Collaborators<Projectiles, Vault, Player>,
                                                   w: World<Projectiles, Vault>) {
    c.isDead(c.playerOf(w.vault))
  }

  /** The state after a sequence of ticks and how often the end-of-game
      notification fired during them. */
  datatype RunResult<Projectiles, Vault> = RunResult(world: World<Projectiles, Vault>, signals: nat)

  /** The ticks of `inputs` run one after the other from `start` by a shell
      that has subscribed to the end-of-game event. */
  function Run<Projectiles, Vault, Player>(c: Collaborators<Projectiles, Vault, Player>, start: World<Projectiles, Vault>,
                                           fieldSize: Size, inputs: seq<TickInput>): RunResult<Projectiles, Vault>
    decreases |inputs|
  {
    if inputs == [] then RunResult(start, 0)
    else
      var before := Run(c, start, fieldSize, inputs[..|inputs| - 1]);
      var after := Tick(c, before.world, fieldSize, inputs[|inputs| - 1]);
      RunResult(after, before.signals + if PlayerDead(c, after) then 1 else 0)
  }

  /** The notification fires at most once per tick. */
  lemma {:induction false} RunSignalsAtMostOnePerTick<Projectiles, Vault, Player>(
    c: Collaborators<Projectiles, Vault, Player>, start: World<Projectiles, Vault>, fieldSize: Size, inputs: seq<TickInput>)
    ensures Run(c, start, fieldSize, inputs).signals <= |inputs|
    decreases |inputs|
  {
    if inputs != [] {
      RunSignalsAtMostOnePerTick(c, start, fieldSize, inputs[..|inputs| - 1]);
    }
  }

  /** There is no one-shot latch: when the player is dead after every tick,
      the notification fires on every tick. */
  lemma {:induction false} RunSignalsEveryDeadTick<Projectiles, Vault, Player>(
    c: Collaborators<Projectiles, Vault, Player>, start: World<Projectiles, Vault>, fieldSize: Size, inputs: seq<TickInput>)
    requires forall i :: 0 < i <= |inputs| ==> PlayerDead(c, Run(c, start, fieldSize, inputs[..i]).world)
    ensures Run(c, start, fieldSize, inputs).signals == |inputs|
    decreases |inputs|
  {
    if inputs != [] {
      var n := |inputs| - 1;
      forall i | 0 < i <= n
        ensures PlayerDead(c, Run(c, start, fieldSize, inputs[..n][..i]).world)
      {
        assert inputs[..n][..i] == inputs[..i];
      }
      RunSignalsEveryDeadTick(c, start, fieldSize, inputs[..n]);
      assert inputs[..n + 1] == inputs;
    }
  }

  /** The notification never fires while the player stays alive after every
      tick. */
  lemma {:induction false} RunSignalsOnlyWhenDead<Projectiles, Vault, Player>(
    c: Collaborators<Projectiles, Vault, Player>, start: World<Projectiles, Vault>, fieldSize: Size, inputs: seq<TickInput>)
    requires forall i :: 0 < i <= |inputs| ==> !PlayerDead(c, Run(c, start, fieldSize, inputs[..i]).world)
    ensures Run(c, start, fieldSize, inputs).signals == 0
    decreases |inputs|
  {
    if inputs != [] {
      var n := |inputs| - 1;
      forall i | 0 < i <= n
        ensures !PlayerDead(c, Run(c, start, fieldSize, inputs[..n][..i]).world)
      {
        assert inputs[..n][..i] == inputs[..i];
      }
      RunSignalsOnlyWhenDead(c, start, fieldSize, inputs[..n]);
      assert inputs[..n + 1] == inputs;
    }
  }

  /** The player is dead after the `i`-th tick of `inputs`. */
  predicate DeadAfter<Projectiles, Vault, Player>(c: Collaborators<Projectiles, Vault, Player>,
                                                  start: World<Projectiles, Vault>, fieldSize: Size,
                                                  inputs: seq<TickInput>, i: int)
    requires 0 <= i <= |inputs|
  {
    PlayerDead(c, Run(c, start, fieldSize, inputs[..i]).world)
  }

  /** The ticks of `inputs` (numbered from 1) after which the player is dead. */
  function DeadTicks<Projectiles, Vault, Player>(c: Collaborators<Projectiles, Vault, Player>,
                                                 start: World<Projectiles, Vault>, fieldSize: Size,
                                                 inputs: seq<TickInput>): set<int>
  {
    set i | 1 <= i <= |inputs| && DeadAfter(c, start, fieldSize, inputs, i)
  }

  /** Extending a run by one tick adds that tick to the dead ticks exactly
      when the player is dead after it. */
  lemma DeadTicksStep<Projectiles, Vault, Player>(
    c: Collaborators<Projectiles, Vault, Player>, start: World<Projectiles, Vault>, fieldSize: Size, inputs: seq<TickInput>)
    requires inputs != []
    ensures var n := |inputs| - 1;
            DeadTicks(c, start, fieldSize, inputs) ==
            DeadTicks(c, start, fieldSize, inputs[..n]) +
            (if PlayerDead(c, Run(c, start, fieldSize, inputs).world) then {n + 1} else {})
  {
    var n := |inputs| - 1;
    var prefix := inputs[..n];
    forall i | 1 <= i <= n
      ensures DeadAfter(c, start, fieldSize, prefix, i) == DeadAfter(c, start, fieldSize, inputs, i)
    {
      assert prefix[..i] == inputs[..i];
    }
    assert inputs[..n + 1] == inputs;
    assert DeadAfter(c, start, fieldSize, inputs, n + 1) == PlayerDead(c, Run(c, start, fieldSize, inputs).world);
  }

  /** The notification fires once for every tick after which the player is
      dead, and for no other tick. */
  lemma {:induction false} RunSignalsCountDeadTicks<Projectiles, Vault, Player>(
    c: Collaborators<Projectiles, Vault, Player>, start: World<Projectiles, Vault>, fieldSize: Size, inputs: seq<TickInput>)
    ensures Run(c, start, fieldSize, inputs).signals == |DeadTicks(c, start, fieldSize, inputs)|
    decreases |inputs|
  {
    if inputs == [] {
      assert DeadTicks(c, start, fieldSize, inputs) == {};
    } else {
      var n := |inputs| - 1;
      RunSignalsCountDeadTicks(c, start, fieldSize, inputs[..n]);
      DeadTicksStep(c, start, fieldSize, inputs);
      assert n + 1 !in DeadTicks(c, start, fieldSize, inputs[..n]);
    }
  }

  /** A run split in two is the second part run from where the first ended,
      and the notifications add up. */
  lemma {:induction false} RunAppend<Projectiles, Vault, Player>(
    c: Collaborators<Projectiles, Vault, Player>, start: World<Projectiles, Vault>, fieldSize: Size,
    first: seq<TickInput>, second: seq<TickInput>)
    ensures Run(c, start, fieldSize, first + second).world ==
            Run(c, Run(c, start, fieldSize, first).world, fieldSize, second).world
    ensures Run(c, start, fieldSize, first + second).signals ==
            Run(c, start, fieldSize, first).signals + Run(c, Run(c, start, fieldSize, first).world, fieldSize, second).signals
    decreases |second|
  {
    if second == [] {
      assert first + second == first;
    } else {
      var n := |second| - 1;
      assert (first + second)[..|first + second| - 1] == first + second[..n];
      RunAppend(c, start, fieldSize, first, second[..n]);
    }
  }

  /** The field. The projectile list, the vault (which owns the player) and
      the collaborators' behaviour are opaque; the field size never changes;
      the end-of-game event is a flag saying whether a handler is subscribed
      and a count of the times it was invoked. */
  class Field<!Projectiles, !Vault, !Avatar> {
    const collaborators: Collaborators<Projectiles, Vault, Avatar>
    var fieldSize: Size
    var projectiles: Projectiles
    var vault: Vault
    var endGameSubscribed: bool
    var endGameSignals: nat
    /** The phases run so far, oldest first. */
    ghost var phaseLog: seq<Phase>

    /** The tick-changed part of the state. */
    function State(): World<Projectiles, Vault>
      reads this
    {
      World(projectiles, vault)
    }

    /** The player is always the vault's player. */
    function Player(): Avatar
      reads this
    {
      collaborators.playerOf(vault)
    }

    /** A fresh field of 1200 by 700 with an empty projectile list and the
        test level, whose player is placed at `playerStartPosition` with size
        50 by 50; no handler is subscribed yet. */
    constructor (c: Collaborators<Projectiles, Vault, Avatar>, playerStartPosition: Vector)
      ensures collaborators == c
      ensures fieldSize == FieldDimensions && fieldSize.width == 1200 && fieldSize.height == 700
      ensures projectiles == c.emptyProjectiles
      ensures vault == c.placePlayer(c.testLevel, playerStartPosition, PlayerSize)
      ensures !endGameSubscribed && endGameSignals == 0 && phaseLog == []
    {
      collaborators := c;
      fieldSize := FieldDimensions;
      projectiles := c.emptyProjectiles;
      vault := c.placePlayer(c.testLevel, playerStartPosition, PlayerSize);
      endGameSubscribed := false;
      endGameSignals := 0;
      phaseLog := [];
    }

    /** Adds a handler to the end-of-game event. */
    method SubscribeEndGame()
      modifies this
      ensures endGameSubscribed
      ensures State() == old(State()) && fieldSize == old(fieldSize)
      ensures endGameSignals == old(endGameSignals) && phaseLog == old(phaseLog)
    {
      endGameSubscribed := true;
    }

    /** Whether an object of `objectSize` at `newLocation` sticks out of this
        field; lying exactly on an edge counts as inside. It is out exactly
        when the bound check would move it while it stands still. */
    function IsOutOfField(newLocation: Vector, objectSize: Size): (out: bool)
      reads this
      ensures out <==> Movement.CheckMoveWithFieldBounds(Vector(0.0, 0.0), fieldSize, newLocation, objectSize)
                       != Vector(0.0, 0.0)
    {
      OutOfField(newLocation, objectSize, fieldSize)
    }

    /** Moves every projectile; hits may change the vault. */
    method ExecuteAllProjectiles()
      modifies this
      ensures State() == World(collaborators.executeAllProjectiles(old(projectiles), fieldSize, old(vault)).0,
                               collaborators.executeAllProjectiles(old(projectiles), fieldSize, old(vault)).1)
      ensures fieldSize == old(fieldSize) && endGameSubscribed == old(endGameSubscribed)
      ensures endGameSignals == old(endGameSignals)
      ensures phaseLog == old(phaseLog) + [ProjectilesPhase]
    {
      var (p, v) := collaborators.executeAllProjectiles(projectiles, fieldSize, vault);
      projectiles, vault := p, v;
      phaseLog := phaseLog + [ProjectilesPhase];
    }

    /** Moves the vault's own obstacles. */
    method ExecuteVaultMoving()
      modifies this
      ensures State() == World(old(projectiles), collaborators.executeMoving(old(vault), fieldSize))
      ensures fieldSize == old(fieldSize) && endGameSubscribed == old(endGameSubscribed)
      ensures endGameSignals == old(endGameSignals)
      ensures phaseLog == old(phaseLog) + [VaultMovingPhase]
    {
      vault := collaborators.executeMoving(vault, fieldSize);
      phaseLog := phaseLog + [VaultMovingPhase];
    }

    /** Passes the shoot command's coordinates and the current player to the
        projectile list. */
    method TryShoot(shootCommand: ControlCommand)
      modifies this
      ensures State() == World(collaborators.tryShoot(old(projectiles), shootCommand.x, shootCommand.y, old(Player())),
                               old(vault))
      ensures fieldSize == old(fieldSize) && endGameSubscribed == old(endGameSubscribed)
      ensures endGameSignals == old(endGameSignals)
      ensures phaseLog == old(phaseLog) + [ShootPhase]
    {
      projectiles := collaborators.tryShoot(projectiles, shootCommand.x, shootCommand.y, Player());
      phaseLog := phaseLog + [ShootPhase];
    }

    /** Moves the player by the move command's coordinates, within the vault
        and the field size. */
    method MovePlayer(moveCommand: ControlCommand)
      modifies this
      ensures State() == World(old(projectiles),
                               collaborators.doPlayerMove(old(vault), moveCommand.x, moveCommand.y, fieldSize))
      ensures fieldSize == old(fieldSize) && endGameSubscribed == old(endGameSubscribed)
      ensures endGameSignals == old(endGameSignals)
      ensures phaseLog == old(phaseLog) + [MovePlayerPhase]
    {
      vault := collaborators.doPlayerMove(vault, moveCommand.x, moveCommand.y, fieldSize);
      phaseLog := phaseLog + [MovePlayerPhase];
    }

    /** One tick: the four phases in order, then the end-of-game event if the
        player is dead afterwards, on every such tick. With no handler
        subscribed the invocation fails, after the state has changed. */
    method GameTick(moveCommand: ControlCommand, shootCommand: ControlCommand) returns (outcome: TickOutcome)
      modifies this
      ensures State() == Tick(collaborators, old(State()), fieldSize, TickInput(moveCommand, shootCommand))
      ensures phaseLog == old(phaseLog) + [ProjectilesPhase, VaultMovingPhase, ShootPhase, MovePlayerPhase]
      ensures fieldSize == old(fieldSize) && endGameSubscribed == old(endGameSubscribed)
      ensures outcome == (if !PlayerDead(collaborators, State()) then Continued
                          else if endGameSubscribed then GameEnded
                          else NullEndGameEvent)
      ensures endGameSignals == old(endGameSignals) + (if outcome == GameEnded then 1 else 0)
    {
      ExecuteAllProjectiles();
      ExecuteVaultMoving();
      TryShoot(shootCommand);
      MovePlayer(moveCommand);

      if collaborators.isDead(Player()) {
        if endGameSubscribed {
          endGameSignals := endGameSignals + 1;
          outcome := GameEnded;
        } else {
          outcome := NullEndGameEvent;
        }
      } else {
        outcome := Continued;
      }
    }
  }

  /** `GameTick` called once per input on a field whose end-of-game event
      has a handler, as the shell's timer is taken to do through its
      controller: the field ends where `Run` does and the notification count
      grows by `Run`'s count. */
  method Play<Projectiles, Vault, Avatar>(field: Field<Projectiles, Vault, Avatar>, inputs: seq<TickInput>)
    requires field.endGameSubscribed
    modifies field
    ensures field.State() == Run(field.collaborators, old(field.State()), field.fieldSize, inputs).world
    ensures field.endGameSignals ==
            old(field.endGameSignals) + Run(field.collaborators, old(field.State()), field.fieldSize, inputs).signals
    ensures field.fieldSize == old(field.fieldSize) && field.endGameSubscribed
  {
    for i := 0 to |inputs|
      invariant field.fieldSize == old(field.fieldSize) && field.endGameSubscribed
      invariant field.State() == Run(field.collaborators, old(field.State()), field.fieldSize, inputs[..i]).world
      invariant field.endGameSignals ==
                old(field.endGameSignals) + Run(field.collaborators, old(field.State()), field.fieldSize, inputs[..i]).signals
    {
      assert inputs[..i + 1][..i] == inputs[..i];
      var _ := field.GameTick(inputs[i].moveCommand, inputs[i].shootCommand);
    }
    assert inputs[..|inputs|] == inputs;
  }
}
