/** Axis-aligned boxes and the volume two of them share. */
module ClashGeometry {

  datatype Point = Point(x: real, y: real, z: real)

  datatype Box = Box(min: Point, max: Point)

  function Max(a: real, b: real): real { if a < b then b else a }

  function Min(a: real, b: real): real { if b < a then b else a }

  /** The length that two intervals share. */
  function Shared(min1: real, max1: real, min2: real, max2: real): real {
    Max(0.0, Min(max1, max2) - Max(min1, min2))
  }

  /** The three lengths that two boxes share. */
  function Overlap(b: Box, c: Box): Point {
    Point(Shared(b.min.x, b.max.x, c.min.x, c.max.x),
          Shared(b.min.y, b.max.y, c.min.y, c.max.y),
          Shared(b.min.z, b.max.z, c.min.z, c.max.z))
  }

  function Size(b: Box): Point { Point(b.max.x - b.min.x, b.max.y - b.min.y, b.max.z - b.min.z) }

  function Product(p: Point): real { p.x * p.y * p.z }

  function OverlapVolume(b: Box, c: Box): real { Product(Overlap(b, c)) }

  function Volume(b: Box): real { Product(Size(b)) }

  function Center(b: Box, c: Box): Point {
    Point((b.min.x + b.max.x + c.min.x + c.max.x) / 4.0,
          (b.min.y + b.max.y + c.min.y + c.max.y) / 4.0,
          (b.min.z + b.max.z + c.min.z + c.max.z) / 4.0)
  }

  predicate WellFormed(b: Box) { b.min.x <= b.max.x && b.min.y <= b.max.y && b.min.z <= b.max.z }

  predicate Inside(p: Point, b: Box) {
    b.min.x < p.x < b.max.x && b.min.y < p.y < b.max.y && b.min.z < p.z < b.max.z
  }

  predicate Within(b: Box, c: Box) {
    && c.min.x <= b.min.x && b.max.x <= c.max.x
    && c.min.y <= b.min.y && b.max.y <= c.max.y
    && c.min.z <= b.min.z && b.max.z <= c.max.z
  }

  /** Which of the two boxes comes first does not matter. */
  lemma OverlapIsSymmetric(b: Box, c: Box)
    ensures OverlapVolume(b, c) == OverlapVolume(c, b) && Center(b, c) == Center(c, b)
  {
  }

  predicate Nonnegative(p: Point) { p.x >= 0.0 && p.y >= 0.0 && p.z >= 0.0 }

  predicate Positive(p: Point) { p.x > 0.0 && p.y > 0.0 && p.z > 0.0 }

  predicate AtMost(p: Point, q: Point) { p.x <= q.x && p.y <= q.y && p.z <= q.z }

  lemma ProductIsPositiveIff(p: Point)
    requires Nonnegative(p)
    ensures Product(p) >= 0.0
    ensures Product(p) > 0.0 <==> Positive(p)
  {
    if p.x > 0.0 && p.y > 0.0 {
      assert p.x * p.y > 0.0;
      if p.z > 0.0 { assert p.x * p.y * p.z > 0.0; }
    } else {
      assert p.x * p.y == 0.0;
    }
  }

  lemma Scaling(a: real, b: real, s: real)
    requires a <= b && s >= 0.0
    ensures a * s <= b * s
    ensures a < b && s > 0.0 ==> a * s < b * s
  {
    assert b * s - a * s == (b - a) * s;
  }

  /** Replacing one factor after the other by one that is no smaller. */
  lemma PairIsMonotone(x: real, y: real, u: real, v: real)
    requires 0.0 <= x <= u && 0.0 <= y <= v
    ensures 0.0 <= x * y <= u * v
    ensures u > 0.0 && v > 0.0 && x * y == u * v ==> x == u && y == v
  {
    Scaling(x, u, y);
    Scaling(y, v, u);
    Scaling(0.0, x, y);
    if u > 0.0 && v > 0.0 && y == v { Scaling(x, u, v); }
  }

  lemma PairIsPositive(u: real, v: real)
    requires u > 0.0 && v > 0.0
    ensures u * v > 0.0
  {
  }

  lemma TripleIsMonotone(x: real, y: real, z: real, u: real, v: real, w: real)
    requires 0.0 <= x <= u && 0.0 <= y <= v && 0.0 <= z <= w
    ensures x * y * z <= u * v * w
    ensures u > 0.0 && v > 0.0 && w > 0.0 && x * y * z == u * v * w ==> x == u && y == v && z == w
  {
    var p, q := x * y, u * v;
    PairIsMonotone(x, y, u, v);
    PairIsMonotone(p, z, q, w);
    if u > 0.0 && v > 0.0 { PairIsPositive(u, v); }
  }

  /** Products are ordered as their factors are; under positive ones, equal only if these are. */
  lemma ProductIsMonotone(p: Point, q: Point)
    requires Nonnegative(p) && AtMost(p, q)
    ensures Product(p) <= Product(q)
    ensures Positive(q) ==> (Product(p) == Product(q) <==> p == q)
  {
    TripleIsMonotone(p.x, p.y, p.z, q.x, q.y, q.z);
  }

  // ---------- what the shared lengths mean ----------

  function Middle(b: Box, c: Box): Point {
    Point((Max(b.min.x, c.min.x) + Min(b.max.x, c.max.x)) / 2.0,
          (Max(b.min.y, c.min.y) + Min(b.max.y, c.max.y)) / 2.0,
          (Max(b.min.z, c.min.z) + Min(b.max.z, c.max.z)) / 2.0)
  }

  lemma LengthsMeet(b: Box, c: Box)
    ensures Nonnegative(Overlap(b, c))
    ensures Positive(Overlap(b, c)) ==> Inside(Middle(b, c), b) && Inside(Middle(b, c), c)
    ensures forall p | Inside(p, b) && Inside(p, c) :: Positive(Overlap(b, c))
  {
  }

  lemma LengthsAreBounded(b: Box, c: Box)
    requires WellFormed(b)
    ensures Nonnegative(Overlap(b, c)) && AtMost(Overlap(b, c), Size(b)) && Nonnegative(Size(b))
    ensures Positive(Size(b)) ==> (Overlap(b, c) == Size(b) <==> Within(b, c))
  {
  }

  /** Whatever the boxes, the overlap is positive exactly if some point is inside both. */
  lemma PositiveIffInteriorsMeet(b: Box, c: Box)
    ensures OverlapVolume(b, c) >= 0.0
    ensures OverlapVolume(b, c) > 0.0 <==> exists p :: Inside(p, b) && Inside(p, c)
  {
    var s := Overlap(b, c);
    assert OverlapVolume(b, c) == Product(s);
    LengthsMeet(b, c);
    ProductIsPositiveIff(s);
  }

  /** The overlap is at most a box's volume, and all of a solid box exactly if that box lies
      within the other. */
  lemma OverlapIsPartOf(b: Box, c: Box)
    requires WellFormed(b)
    ensures OverlapVolume(b, c) <= Volume(b)
    ensures Volume(b) > 0.0 ==> (OverlapVolume(b, c) == Volume(b) <==> Within(b, c))
  {
    LengthsAreBounded(b, c);
    ProductIsMonotone(Overlap(b, c), Size(b));
    ProductIsPositiveIff(Size(b));
  }

  lemma OverlapIsBounded(b: Box, c: Box)
    requires WellFormed(b) && WellFormed(c)
    ensures 0.0 <= OverlapVolume(b, c) <= Min(Volume(b), Volume(c))
  {
    PositiveIffInteriorsMeet(b, c);
    OverlapIsPartOf(b, c);
    OverlapIsPartOf(c, b);
    OverlapIsSymmetric(b, c);
  }
}
