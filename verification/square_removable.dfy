/** The destructible square obstacle: a health counter that each hit
    decrements and from which death is derived. */
module Removables {
  import opened Geometry

  const MinInt32: int := -0x8000_0000
  const MaxInt32: int := 0x7fff_ffff

  /** A C# `int`. */
  type Int32 = n: int | MinInt32 <= n <= MaxInt32

  /** `n--` on a C# `int` in an unchecked context: the result is `n - 1`
      modulo 2^32, which within the `int` range means it wraps from the least
      value round to the greatest. */
  function Decrement(n: Int32): (r: Int32)
    ensures (n - 1 - r) % 0x1_0000_0000 == 0
    ensures n > MinInt32 ==> r == n - 1
  {
    if n == MinInt32 then MaxInt32 else n - 1
  }

  /** The death rule of a removable obstacle. */
  predicate IsDeadHealth(healthPoints: int) {
    healthPoints <= 0
  }

  /** Health after `hits` further hits starting from `healthPoints`. */
  function HealthAfterHits(healthPoints: Int32, hits: nat): Int32
    decreases hits
  {
    if hits == 0 then healthPoints else Decrement(HealthAfterHits(healthPoints, hits - 1))
  }

  /** While the counter does not wrap, `k` hits from health `h` leave
      `h - k`, and the obstacle is dead exactly when `k >= h`. */
  lemma {:induction false} HealthAfterHitsValue(healthPoints: Int32, hits: nat)
    requires healthPoints - hits >= MinInt32
    ensures HealthAfterHits(healthPoints, hits) == healthPoints - hits
    ensures IsDeadHealth(HealthAfterHits(healthPoints, hits)) <==> hits >= healthPoints
    decreases hits
  {
    if hits > 0 {
      HealthAfterHitsValue(healthPoints, hits - 1);
    }
  }

  /** Health never rises while the counter does not wrap, and once the
      obstacle is dead it stays dead under further hits: there is no floor
      on the counter. */
  lemma DeadStaysDead(healthPoints: Int32, hits: nat, moreHits: nat)
    requires healthPoints - hits - moreHits >= MinInt32
    ensures HealthAfterHits(healthPoints, hits + moreHits) == HealthAfterHits(healthPoints, hits) - moreHits
    ensures IsDeadHealth(HealthAfterHits(healthPoints, hits)) ==>
              IsDeadHealth(HealthAfterHits(healthPoints, hits + moreHits))
  {
    HealthAfterHitsValue(healthPoints, hits);
    HealthAfterHitsValue(healthPoints, hits + moreHits);
  }

  /** A living obstacle has positive health and dies at exactly its
      `healthPoints`-th further hit and not before; a dead one stays dead
      after another hit unless the counter wraps. */
  lemma DeathHit(healthPoints: Int32)
    ensures !IsDeadHealth(healthPoints) <==>
              healthPoints > 0 &&
              IsDeadHealth(HealthAfterHits(healthPoints, healthPoints)) &&
              !IsDeadHealth(HealthAfterHits(healthPoints, healthPoints - 1))
    ensures IsDeadHealth(healthPoints) && healthPoints > MinInt32 ==> IsDeadHealth(HealthAfterHits(healthPoints, 1))
  {
    if healthPoints > 0 {
      HealthAfterHitsValue(healthPoints, healthPoints);
      HealthAfterHitsValue(healthPoints, healthPoints - 1);
    }
  }

  /** The one exception to "dead stays dead": a hit at the least `int`
      wraps the counter to the greatest and the obstacle is alive again. */
  lemma WrapRevives()
    ensures IsDeadHealth(MinInt32) && !IsDeadHealth(Decrement(MinInt32))
    ensures HealthAfterHits(0, 0x8000_0001) == MaxInt32
  {
    HealthAfterHitsValue(0, 0x8000_0000);
  }

  /** A removable square obstacle. Location and size are settable
      properties; health is the counter that hits decrement. */
  class SquareRemovable {
    var location: Vector
    var size: Size
    var healthPoints: Int32

    /** `IsDead`: health has dropped to zero or below. */
    predicate IsDead()
      reads this
    {
      IsDeadHealth(healthPoints)
    }

    /** Stores the given location, size and health unchanged. */
    constructor (location: Vector, size: Size, healthPoints: Int32)
      ensures this.location == location && this.size == size && this.healthPoints == healthPoints
      ensures IsDead() <==> healthPoints <= 0
    {
      this.location := location;
      this.size := size;
      this.healthPoints := healthPoints;
    }

    /** One hit: health goes down by exactly one (wrapping at the least
      `int`), location and size stay as they were. */
    method GetHit()
      modifies this
      ensures healthPoints == HealthAfterHits(old(healthPoints), 1)
      ensures old(healthPoints) > MinInt32 ==> healthPoints == old(healthPoints) - 1
      ensures old(healthPoints) > MinInt32 && old(IsDead()) ==> IsDead()
      ensures location == old(location) && size == old(size)
    {
      healthPoints := Decrement(healthPoints);
    }
  }
}
