/**
  What the genetic algorithm and the simulated annealer share: an assignment
  of one piece instance to a stock type at a position with a rotation number
  (the former's `Gene`, the latter's placement) and random draws as explicit
  numbers in [0, 1). The grouping of assignments into one layout per stock
  type lives in module Grouping, the layout objects and their volume totals
  in module Layouts.
 */
module Assignments {
  import opened Sorting
  import opened Foam
  import opened Geometry

  /** One piece instance put into one stock type; `rotation` is the number drawn from [0, 8). */
  datatype Assignment = Assignment(pieceId: string, stockId: string, x: real, y: real, z: real, rotation: nat)

  /** The stock types and the expanded piece instances an engine was built with. */
  datatype Context = Context(stocks: seq<Stock>, expanded: seq<Piece>)

  // ---------------------------------------------------------------------------
  // Random draws

  /** A value `Math.random()` can return. */
  predicate Unit(u: real) {
    0.0 <= u < 1.0
  }

  /** `Math.floor(Math.random() * n)`: an index into a collection of `n` elements (0 when `n` is 0). */
  function Index(u: real, n: nat): (k: nat)
    requires Unit(u)
    ensures n > 0 ==> k < n
    ensures n == 0 ==> k == 0
    ensures (k as real) <= u * (n as real) < (k as real) + 1.0
  {
    var f := (u * (n as real)).Floor;
    ProductBounds(u, n as real);
    f
  }

  lemma ProductBounds(u: real, n: real)
    requires 0.0 <= u < 1.0 && n >= 0.0
    ensures 0.0 <= u * n && (n > 0.0 ==> u * n < n)
  {
  }

  /** `v` lies between 0 and `bound`, whichever sign `bound` has. */
  predicate Between(v: real, bound: real) {
    if bound >= 0.0 then 0.0 <= v <= bound else bound <= v <= 0.0
  }

  /** `Math.random() * extent`. */
  function Scale(u: real, extent: real): (v: real)
    requires Unit(u)
    ensures Between(v, extent)
  {
    ScaledBetween(u, extent);
    u * extent
  }

  lemma ScaledBetween(u: real, bound: real)
    requires Unit(u)
    ensures Between(u * bound, bound)
  {
    if bound >= 0.0 {
      ProductBounds(u, bound);
    } else {
      var nb := -bound;
      ProductBounds(u, nb);
      assert u * bound == -(u * nb);
    }
  }

  /**
    `r` is `v` forced into [0, bound]: 0 when the bound or `v` is not
    positive, the bound when `v` reaches it, `v` itself otherwise.
   */
  predicate ClampedTo(bound: real, v: real, r: real) {
    if bound <= 0.0 || v <= 0.0 then r == 0.0
    else if v >= bound then r == bound
    else r == v
  }

  /** `Math.max(0, Math.min(bound, v))`. */
  function Clamp(bound: real, v: real): (r: real)
    ensures 0.0 <= r
    ensures bound >= 0.0 ==> r <= bound
    ensures 0.0 <= v <= bound ==> r == v
    ensures bound >= 0.0 && v >= bound ==> r == bound
    ensures v <= 0.0 || bound <= 0.0 ==> r == 0.0
    ensures ClampedTo(bound, v, r)
  {
    MaxReal(0.0, MinReal(bound, v))
  }

  /** `v` lies within `r` of `u`. */
  predicate Near(u: real, v: real, r: real) {
    -r <= v - u <= r
  }

  /** Clamping never takes a value further from a point that lies inside the bound. */
  lemma ClampNear(bound: real, v0: real, v: real, r: real)
    requires Near(v0, v, r)
    ensures 0.0 <= v0 <= bound ==> Near(v0, Clamp(bound, v), r)
  {
  }
}
