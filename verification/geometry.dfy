/** Two-dimensional primitives shared by the simulation: a position or
    displacement (`Vector`) and an integer extent (`System.Drawing.Size`).
    Every shape is centred on its location. */
module Geometry {

  /** A point or a displacement. Coordinates are exact reals, so no
      floating-point rounding is modelled. */
  datatype Vector = Vector(x: real, y: real) {
    /** Component-wise sum, the `+` of two vectors. */
    function Plus(other: Vector): Vector {
      Vector(x + other.x, y + other.y)
    }
  }

  /** An integer width and height, as `System.Drawing.Size`. */
  datatype Size = Size(width: int, height: int)

  /** `n / 2` on a C# `int`: the quotient is truncated toward zero, which
      differs from Dafny's Euclidean division for negative `n`. */
  function Half(n: int): (h: int)
    ensures 0 <= n ==> 0 <= 2 * h <= n < 2 * h + 2
    ensures n < 0 ==> n <= 2 * h <= 0 && 2 * h < n + 2
  {
    if n >= 0 then n / 2 else -((-n) / 2)
  }

  /** The smallest centre coordinate that keeps an object of `extent` on the
      field along one axis: `extent / 2`. */
  function LowerEdge(extent: int): real {
    Half(extent) as real
  }

  /** The largest centre coordinate that keeps an object of `extent` on a
      field of `fieldExtent` along one axis: `fieldExtent - extent / 2`. */
  function UpperEdge(fieldExtent: int, extent: int): real {
    (fieldExtent - Half(extent)) as real
  }
}
