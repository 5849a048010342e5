/** Per-tick displacement of a movable object: the collision-reaction fold
    over the vault's obstacles followed by the per-axis field-bound check. */
module Movement {
  import opened Geometry

  /** What the movement code reads of an `ICanMove` object. Its behaviour
      (`GetMoveVector`, `GetCopyWithNewLocation`, `ReactOnCollision`) belongs
      to the concrete kinds, so here it is an uninterpreted function. */
  datatype Movable<!Vault, !Obstacle, Copy> = Movable(
    location: Vector,
    size: Size,
    isCanCollision: bool,
    getMoveVector: Vault -> Vector,
    getCopyWithNewLocation: Vector -> Copy,
    reactOnCollision: (Obstacle, Vector) -> Vector)

  // ---------------------------------------------------------------------
  // Field-bound check, as written
  // ---------------------------------------------------------------------

  /** One axis of `CheckMoveWithFieldBounds`: the upper check may replace the
      displacement, and then the lower check, which looks at the same
      unclamped new coordinate, may replace it again. The result is the move
      itself, the displacement onto the upper edge, or the lower branch's
      `location - extent/2`, and the last exactly on a lower underflow. */
  function ClampAxis(location: real, move: real, extent: int, fieldExtent: int): (r: real)
    ensures r == move || location + r == UpperEdge(fieldExtent, extent) || r == location - LowerEdge(extent)
    ensures location + move < LowerEdge(extent) ==> r == location - LowerEdge(extent)
    ensures location + move >= LowerEdge(extent) ==> location + r <= UpperEdge(fieldExtent, extent)
  {
    var newCoord := location + move;
    var afterUpper :=
      if newCoord > UpperEdge(fieldExtent, extent) then UpperEdge(fieldExtent, extent) - location
      else move;
    if newCoord < LowerEdge(extent) then location - LowerEdge(extent) else afterUpper
  }

  /** The displacement `move` of an object at `location` of `size`, checked
      against the bounds of a field of `fieldSize`, axis by axis. A move that
      keeps the object on the field comes back unchanged; an object no larger
      than the field that starts at or past the lower edges stays there. */
  function CheckMoveWithFieldBounds(move: Vector, fieldSize: Size, location: Vector, size: Size): (r: Vector)
    ensures LowerEdge(size.width) <= location.x + move.x <= UpperEdge(fieldSize.width, size.width) &&
            LowerEdge(size.height) <= location.y + move.y <= UpperEdge(fieldSize.height, size.height) ==>
              r == move
    ensures 0 <= size.width <= fieldSize.width && location.x >= LowerEdge(size.width) ==>
              location.x + r.x >= LowerEdge(size.width)
    ensures 0 <= size.height <= fieldSize.height && location.y >= LowerEdge(size.height) ==>
              location.y + r.y >= LowerEdge(size.height)
  {
    Vector(ClampAxis(location.x, move.x, size.width, fieldSize.width),
           ClampAxis(location.y, move.y, size.height, fieldSize.height))
  }

  /** A move that keeps the centre within `[extent/2, fieldExtent - extent/2]`
      is returned unchanged. */
  lemma ClampInsideKeepsMove(location: real, move: real, extent: int, fieldExtent: int)
    requires LowerEdge(extent) <= location + move <= UpperEdge(fieldExtent, extent)
    ensures ClampAxis(location, move, extent, fieldExtent) == move
  {
  }

  /** An upper overflow with no lower underflow lands the centre exactly on
      the upper edge. */
  lemma ClampUpperSnapsToEdge(location: real, move: real, extent: int, fieldExtent: int)
    requires location + move > UpperEdge(fieldExtent, extent)
    requires location + move >= LowerEdge(extent)
    ensures location + ClampAxis(location, move, extent, fieldExtent) == UpperEdge(fieldExtent, extent)
  {
  }

  /** A lower underflow returns `location - extent/2` whatever `move` was; an
      object already on the lower edge that pushes outward does not move. */
  lemma ClampLowerIgnoresMove(location: real, move: real, move': real, extent: int, fieldExtent: int)
    requires location + move < LowerEdge(extent)
    requires location + move' < LowerEdge(extent)
    ensures ClampAxis(location, move, extent, fieldExtent) == location - LowerEdge(extent)
    ensures ClampAxis(location, move, extent, fieldExtent) == ClampAxis(location, move', extent, fieldExtent)
    ensures location == LowerEdge(extent) ==> ClampAxis(location, move, extent, fieldExtent) == 0.0
  {
  }

  /** Both checks fire only when the upper edge lies below the lower edge, and
      then the lower-bound assignment, executed last, decides. */
  lemma ClampBothFireLowerWins(location: real, move: real, extent: int, fieldExtent: int)
    requires location + move > UpperEdge(fieldExtent, extent)
    requires location + move < LowerEdge(extent)
    ensures UpperEdge(fieldExtent, extent) < LowerEdge(extent)
    ensures 0 <= extent ==> fieldExtent < extent
    ensures ClampAxis(location, move, extent, fieldExtent) == location - LowerEdge(extent)
  {
  }

  /** For an object no larger than the field that starts at or above the
      lower edge, the result stays at or above the lower edge; without a lower
      underflow it also stays at or below the upper edge. */
  lemma ClampBounds(location: real, move: real, extent: int, fieldExtent: int)
    requires 0 <= extent <= fieldExtent
    requires location >= LowerEdge(extent)
    ensures location + ClampAxis(location, move, extent, fieldExtent) >= LowerEdge(extent)
    ensures location + move >= LowerEdge(extent) ==>
              location + ClampAxis(location, move, extent, fieldExtent) <= UpperEdge(fieldExtent, extent)
  {
  }

  /** The X component of the result depends on the X inputs only, and the Y
      component on the Y inputs only. */
  lemma AxesIndependent(move: Vector, move': Vector, fieldSize: Size, fieldSize': Size,
                        location: Vector, location': Vector, size: Size, size': Size)
    ensures move.x == move'.x && fieldSize.width == fieldSize'.width &&
            location.x == location'.x && size.width == size'.width ==>
              CheckMoveWithFieldBounds(move, fieldSize, location, size).x ==
              CheckMoveWithFieldBounds(move', fieldSize', location', size').x
    ensures move.y == move'.y && fieldSize.height == fieldSize'.height &&
            location.y == location'.y && size.height == size'.height ==>
              CheckMoveWithFieldBounds(move, fieldSize, location, size).y ==
              CheckMoveWithFieldBounds(move', fieldSize', location', size').y
  {
  }

  /** The lower-bound branch moves the object away from the edge by as much
      as it stands inside it, instead of onto the edge: on a 1200-wide field
      an object 50 wide at x = 30 moving -10 ends at 35, not 25, and one at
      x = 1000 moving -1000 ends at 1975, beyond the upper edge 1175. */
  lemma LowerClampOvershoots()
    ensures ClampAxis(30.0, -10.0, 50, 1200) == 5.0
    ensures 30.0 + ClampAxis(30.0, -10.0, 50, 1200) != LowerEdge(50)
    ensures 1000.0 + ClampAxis(1000.0, -1000.0, 50, 1200) == 1975.0
    ensures 1000.0 + ClampAxis(1000.0, -1000.0, 50, 1200) > UpperEdge(1200, 50)
  {
  }

  // ---------------------------------------------------------------------
  // Field-bound check, as evidently intended
  // ---------------------------------------------------------------------

  /** The per-axis check with the lower branch mirroring the upper one: an
      underflow snaps the centre onto the lower edge. */
  function ClampAxisIntended(location: real, move: real, extent: int, fieldExtent: int): real {
    var newCoord := location + move;
    var afterUpper :=
      if newCoord > UpperEdge(fieldExtent, extent) then UpperEdge(fieldExtent, extent) - location
      else move;
    if newCoord < LowerEdge(extent) then LowerEdge(extent) - location else afterUpper
  }

  /** For an object no larger than the field, the intended check always
      leaves the centre within `[extent/2, fieldExtent - extent/2]`, from any
      start, and lands it on an edge exactly when the move would overshoot. */
  lemma ClampIntendedStaysInside(location: real, move: real, extent: int, fieldExtent: int)
    requires 0 <= extent <= fieldExtent
    ensures LowerEdge(extent) <= location + ClampAxisIntended(location, move, extent, fieldExtent)
                              <= UpperEdge(fieldExtent, extent)
    ensures location + move < LowerEdge(extent) ==>
              location + ClampAxisIntended(location, move, extent, fieldExtent) == LowerEdge(extent)
    ensures location + move > UpperEdge(fieldExtent, extent) ==>
              location + ClampAxisIntended(location, move, extent, fieldExtent) == UpperEdge(fieldExtent, extent)
    ensures LowerEdge(extent) <= location + move <= UpperEdge(fieldExtent, extent) ==>
              ClampAxisIntended(location, move, extent, fieldExtent) == move
  {
  }

  /** The written and the intended checks differ only on a lower underflow,
      and there only when the object does not start on the lower edge. */
  lemma ClampIntendedAgrees(location: real, move: real, extent: int, fieldExtent: int)
    ensures location + move >= LowerEdge(extent) ==>
              ClampAxis(location, move, extent, fieldExtent) == ClampAxisIntended(location, move, extent, fieldExtent)
    ensures location + move < LowerEdge(extent) ==>
              (ClampAxis(location, move, extent, fieldExtent) == ClampAxisIntended(location, move, extent, fieldExtent)
               <==> location == LowerEdge(extent))
  {
  }

  // ---------------------------------------------------------------------
  // Collision-reaction fold
  // ---------------------------------------------------------------------

  /** The move vector after the reactions to the colliding obstacles among
      `obstacles`, taken in order starting from `move`. Collision is always
      tested against the same prospective `copy`. */
  function ReactFold<Obstacle, Copy>(react: (Obstacle, Vector) -> Vector, collides: (Copy, Obstacle) -> bool,
                                     copy: Copy, obstacles: seq<Obstacle>, move: Vector): Vector
    decreases |obstacles|
  {
    if obstacles == [] then move
    else
      var before := ReactFold(react, collides, copy, obstacles[..|obstacles| - 1], move);
      var last := obstacles[|obstacles| - 1];
      if collides(copy, last) then react(last, before) else before
  }

  /** The obstacles of `obstacles` that collide with `copy`, in order. */
  function Colliding<Obstacle, Copy>(collides: (Copy, Obstacle) -> bool, copy: Copy,
                                     obstacles: seq<Obstacle>): seq<Obstacle>
    decreases |obstacles|
  {
    if obstacles == [] then []
    else
      var before := Colliding(collides, copy, obstacles[..|obstacles| - 1]);
      var last := obstacles[|obstacles| - 1];
      if collides(copy, last) then before + [last] else before
  }

  /** `react` applied to every obstacle of `obstacles`, first to last. */
  function ReactAll<Obstacle>(react: (Obstacle, Vector) -> Vector, obstacles: seq<Obstacle>, move: Vector): Vector
    decreases |obstacles|
  {
    if obstacles == [] then move
    else react(obstacles[|obstacles| - 1], ReactAll(react, obstacles[..|obstacles| - 1], move))
  }

  /** `ReactAll` over a concatenation is the second part applied to the
      result of the first. */
  lemma {:induction false} ReactAllAppend<Obstacle>(react: (Obstacle, Vector) -> Vector,
                                                    first: seq<Obstacle>, second: seq<Obstacle>, move: Vector)
    ensures ReactAll(react, first + second, move) == ReactAll(react, second, ReactAll(react, first, move))
    decreases |second|
  {
    if second != [] {
      var n := |second| - 1;
      assert (first + second)[..|first + second| - 1] == first + second[..n];
      ReactAllAppend(react, first, second[..n], move);
    } else {
      assert first + second == first;
    }
  }

  /** The fold is `ReactOnCollision` applied, in vault order, to exactly the
      obstacles that collide with the prospective copy. */
  lemma {:induction false} ReactFoldIsReactionsOfColliding<Obstacle, Copy>(
    react: (Obstacle, Vector) -> Vector, collides: (Copy, Obstacle) -> bool,
    copy: Copy, obstacles: seq<Obstacle>, move: Vector)
    ensures ReactFold(react, collides, copy, obstacles, move) ==
            ReactAll(react, Colliding(collides, copy, obstacles), move)
    ensures forall o :: o in Colliding(collides, copy, obstacles) <==> o in obstacles && collides(copy, o)
    decreases |obstacles|
  {
    if obstacles != [] {
      var n := |obstacles| - 1;
      ReactFoldIsReactionsOfColliding(react, collides, copy, obstacles[..n], move);
      var before := Colliding(collides, copy, obstacles[..n]);
      if collides(copy, obstacles[n]) {
        ReactAllAppend(react, before, [obstacles[n]], move);
        assert [obstacles[n]][..0] == [];
      }
      assert obstacles == obstacles[..n] + [obstacles[n]];
    }
  }

  /** With no obstacle colliding with the prospective copy, the fold leaves
      the move vector as it was. */
  lemma {:induction false} ReactFoldNoCollision<Obstacle, Copy>(
    react: (Obstacle, Vector) -> Vector, collides: (Copy, Obstacle) -> bool,
    copy: Copy, obstacles: seq<Obstacle>, move: Vector)
    requires forall i :: 0 <= i < |obstacles| ==> !collides(copy, obstacles[i])
    ensures ReactFold(react, collides, copy, obstacles, move) == move
    decreases |obstacles|
  {
    if obstacles != [] {
      ReactFoldNoCollision(react, collides, copy, obstacles[..|obstacles| - 1], move);
    }
  }

  /** Folding over a concatenation folds the second part from the result of
      the first: the running vector is threaded through the obstacles. */
  lemma {:induction false} ReactFoldAppend<Obstacle, Copy>(
    react: (Obstacle, Vector) -> Vector, collides: (Copy, Obstacle) -> bool,
    copy: Copy, first: seq<Obstacle>, second: seq<Obstacle>, move: Vector)
    ensures ReactFold(react, collides, copy, first + second, move) ==
            ReactFold(react, collides, copy, second, ReactFold(react, collides, copy, first, move))
    decreases |second|
  {
    if second != [] {
      var n := |second| - 1;
      assert (first + second)[..|first + second| - 1] == first + second[..n];
      ReactFoldAppend(react, collides, copy, first, second[..n], move);
    } else {
      assert first + second == first;
    }
  }

  /** The displacement of `movable` this tick. The prospective copy is built
      once, from the initial move vector; when the object collides, each
      colliding obstacle's reaction is applied in vault order to the running
      vector; the result is then checked against the field bounds. */
  method CalculateMoveVector<Vault, Obstacle, Copy>(
    movable: Movable<Vault, Obstacle, Copy>, vault: Vault, fieldSize: Size,
    getAllObstacles: Vault -> seq<Obstacle>, collisionTwoAbstract: (Copy, Obstacle) -> bool)
    returns (r: Vector)
    ensures !movable.isCanCollision ==>
              r == CheckMoveWithFieldBounds(movable.getMoveVector(vault), fieldSize, movable.location, movable.size)
    ensures movable.isCanCollision ==>
              var initial := movable.getMoveVector(vault);
              var copy := movable.getCopyWithNewLocation(movable.location.Plus(initial));
              r == CheckMoveWithFieldBounds(
                     ReactFold(movable.reactOnCollision, collisionTwoAbstract, copy, getAllObstacles(vault), initial),
                     fieldSize, movable.location, movable.size)
  {
    var moveVector := movable.getMoveVector(vault);
    var withNewLocation := movable.getCopyWithNewLocation(movable.location.Plus(moveVector));
    if movable.isCanCollision {
      var obstacles := getAllObstacles(vault);
      ghost var initial := moveVector;
      for i := 0 to |obstacles|
        invariant moveVector ==
                  ReactFold(movable.reactOnCollision, collisionTwoAbstract, withNewLocation, obstacles[..i], initial)
      {
        assert obstacles[..i + 1][..i] == obstacles[..i];
        if collisionTwoAbstract(withNewLocation, obstacles[i]) {
          moveVector := movable.reactOnCollision(obstacles[i], moveVector);
        }
      }
      assert obstacles[..|obstacles|] == obstacles;
    }
    r := CheckMoveWithFieldBounds(moveVector, fieldSize, movable.location, movable.size);
  }
}
