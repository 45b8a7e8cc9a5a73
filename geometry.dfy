/** Points of the subdivided road graph, the two spatial queries the label
    generator runs over them, and the 90-degree patch rotation. */
module Geometry {

  /** A point in image (x, y) pixel coordinates. */
  datatype Point = Point(x: real, y: real)

  function Add(p: Point, q: Point): Point
  {
    Point(p.x + q.x, p.y + q.y)
  }

  function Sub(p: Point, q: Point): Point
  {
    Point(p.x - q.x, p.y - q.y)
  }

  function SqDist(p: Point, q: Point): (d: real)
    ensures d >= 0.0
  {
    var dx, dy := p.x - q.x, p.y - q.y;
    dx * dx + dy * dy
  }

  /** Euclidean distance from p to c is at most r (compared squared, so no root). */
  predicate Within(p: Point, c: Point, r: real)
  {
    r >= 0.0 && SqDist(p, c) <= r * r
  }

  /** What a KD-tree built over `points` answers to `query_ball_point(c, r)`:
      the indices of all points at distance at most r from c. */
  function BallQuery(points: seq<Point>, c: Point, r: real): (s: set<nat>)
    ensures forall i: int :: i in s <==> 0 <= i < |points| && Within(points[i], c, r)
  {
    set i: nat | i < |points| && Within(points[i], c, r)
  }

  /** An axis-aligned query box, as the R-tree takes it. */
  datatype Box = Box(minX: real, minY: real, maxX: real, maxY: real)

  function Min(a: real, b: real): real { if a <= b then a else b }
  function Max(a: real, b: real): real { if a <= b then b else a }

  /** The box spanned by two corners given in either order. */
  function NormaliseBox(c0: Point, c1: Point): (b: Box)
    ensures b.minX <= b.maxX && b.minY <= b.maxY
    ensures b.minX in {c0.x, c1.x} && b.maxX in {c0.x, c1.x}
    ensures b.minY in {c0.y, c1.y} && b.maxY in {c0.y, c1.y}
    ensures b.minX <= c0.x <= b.maxX && b.minX <= c1.x <= b.maxX
    ensures b.minY <= c0.y <= b.maxY && b.minY <= c1.y <= b.maxY
  {
    Box(Min(c0.x, c1.x), Min(c0.y, c1.y), Max(c0.x, c1.x), Max(c0.y, c1.y))
  }

  predicate InBox(p: Point, b: Box)
  {
    b.minX <= p.x <= b.maxX && b.minY <= p.y <= b.maxY
  }

  /** What an R-tree holding every point as the degenerate box (x, y, x, y)
      answers to `intersection(b)`: boundaries are included. */
  function BoxQuery(points: seq<Point>, b: Box): (s: set<nat>)
    ensures forall i: int :: i in s <==> 0 <= i < |points| && InBox(points[i], b)
  {
    set i: nat | i < |points| && InBox(points[i], b)
  }

  /** Either way of naming the two opposite corners of a rectangle gives the same box. */
  lemma NormaliseBoxOrderFree(x0: real, y0: real, x1: real, y1: real)
    ensures NormaliseBox(Point(x0, y0), Point(x1, y1)) == NormaliseBox(Point(x1, y1), Point(x0, y0))
    ensures NormaliseBox(Point(x0, y0), Point(x1, y1)) == NormaliseBox(Point(x0, y1), Point(x1, y0))
  {
  }

  // ---------------------------------------------------------------------------
  // The rotation applied to kept points. Row vectors are multiplied by
  // trans^T, then rot^T `k` times, then inv(trans^T); trans moves the patch
  // centre to the origin and rot is the matrix [[0, 1], [-1, 0]].

  /** One multiplication of a centred row vector by rot^T. */
  function RotStep(p: Point): Point
  {
    Point(p.y, -p.x)
  }

  /** One multiplication of a centred row vector by inv(rot^T) = rot. */
  function RotStepBack(p: Point): Point
  {
    Point(-p.y, p.x)
  }

  /** Multiplication by matrix_power(rot^T, k); a negative power multiplies
      by the inverse, rot, |k| times. */
  function RotPow(p: Point, k: int): (r: Point)
    ensures k % 4 == 0 ==> r == p
    ensures k % 4 == 1 ==> r == Point(p.y, -p.x)
    ensures k % 4 == 2 ==> r == Point(-p.x, -p.y)
    ensures k % 4 == 3 ==> r == Point(-p.y, p.x)
    decreases if k < 0 then -k else k
  {
    if k == 0 then p
    else if k > 0 then RotPow(RotStep(p), k - 1)
    else RotPow(RotStepBack(p), k + 1)
  }

  /** Rotation of a patch-local point by `k` quarter turns about the centre
      of a patch of side `size`. */
  function Rotate(local: Point, size: real, k: int): (r: Point)
    ensures k % 4 == 0 ==> r == local
    ensures k % 4 == 1 ==> r == Point(local.y, size - local.x)
    ensures k % 4 == 2 ==> r == Point(size - local.x, size - local.y)
    ensures k % 4 == 3 ==> r == Point(size - local.y, local.x)
  {
    var half := Point(0.5 * size, 0.5 * size);
    Add(RotPow(Sub(local, half), k), half)
  }

  /** The map from tile coordinates to rotated patch-local coordinates,
      before noise: subtract the first corner of the patch, then rotate. */
  function LocalTransform(p: Point, origin: Point, size: real, k: int): (r: Point)
    ensures var dx, dy := p.x - origin.x, p.y - origin.y;
      && (k % 4 == 0 ==> r == Point(dx, dy))
      && (k % 4 == 1 ==> r == Point(dy, size - dx))
      && (k % 4 == 2 ==> r == Point(size - dx, size - dy))
      && (k % 4 == 3 ==> r == Point(size - dy, dx))
  {
    Rotate(Sub(p, origin), size, k)
  }

  predicate InSquare(p: Point, size: real)
  {
    0.0 <= p.x <= size && 0.0 <= p.y <= size
  }

  lemma {:induction false} RotPowAdd(p: Point, a: nat, b: nat)
    ensures RotPow(p, a + b) == RotPow(RotPow(p, a), b)
    decreases a
  {
    if a > 0 {
      RotPowAdd(RotStep(p), a - 1, b);
    }
  }

  /** One quarter turn sends patch-local (x, y) to (y, size - x). */
  lemma QuarterTurn(local: Point, size: real)
    ensures Rotate(local, size, 1) == Point(local.y, size - local.x)
  {
  }

  /** Rotation index 0 leaves a patch-local point where it is. */
  lemma NoTurnIsIdentity(local: Point, size: real)
    ensures Rotate(local, size, 0) == local
  {
  }

  /** Rotations compose: a turns followed by b turns are a + b turns. */
  lemma {:induction false} RotateCompose(local: Point, size: real, a: nat, b: nat)
    ensures Rotate(Rotate(local, size, a), size, b) == Rotate(local, size, a + b)
  {
    var half := Point(0.5 * size, 0.5 * size);
    RotPowAdd(Sub(local, half), a, b);
    assert Sub(Rotate(local, size, a), half) == RotPow(Sub(local, half), a);
  }

  /** Four quarter turns are the identity, so only k mod 4 matters. */
  lemma {:induction false} FourTurnsIdentity(local: Point, size: real, k: nat)
    ensures Rotate(local, size, k + 4) == Rotate(local, size, k)
  {
    var half := Point(0.5 * size, 0.5 * size);
    var c := Sub(local, half);
    RotPowAdd(c, k, 4);
    var q := RotPow(c, k);
    assert RotPow(q, 4) == q;
  }

  lemma {:induction false} MultipleOfFourTurnsIdentity(local: Point, size: real, m: nat)
    ensures Rotate(local, size, 4 * m) == local
    decreases m
  {
    if m > 0 {
      MultipleOfFourTurnsIdentity(local, size, m - 1);
      FourTurnsIdentity(local, size, 4 * (m - 1));
    }
  }

  lemma {:induction false} RotPowKeepsSquare(c: Point, h: real, k: nat)
    requires -h <= c.x <= h && -h <= c.y <= h
    ensures var q := RotPow(c, k); -h <= q.x <= h && -h <= q.y <= h
    decreases k
  {
    if k > 0 {
      RotPowKeepsSquare(RotStep(c), h, k - 1);
    }
  }

  /** Any number of quarter turns maps the patch square [0, size]^2 onto itself:
      into it, and every point of it has a preimage inside it. */
  lemma {:induction false} RotateSquareOnto(size: real, k: nat)
    ensures forall p :: InSquare(p, size) ==> InSquare(Rotate(p, size, k), size)
    ensures forall q :: InSquare(q, size) ==> InSquare(Rotate(q, size, 3 * k), size) && Rotate(Rotate(q, size, 3 * k), size, k) == q
  {
    forall p | InSquare(p, size)
      ensures InSquare(Rotate(p, size, k), size)
    {
      RotPowKeepsSquare(Sub(p, Point(0.5 * size, 0.5 * size)), 0.5 * size, k);
    }
    forall q | InSquare(q, size)
      ensures InSquare(Rotate(q, size, 3 * k), size) && Rotate(Rotate(q, size, 3 * k), size, k) == q
    {
      RotPowKeepsSquare(Sub(q, Point(0.5 * size, 0.5 * size)), 0.5 * size, 3 * k);
      RotateCompose(q, size, 3 * k, k);
      MultipleOfFourTurnsIdentity(q, size, k);
    }
  }

  /** A back step is three forward steps. */
  lemma {:induction false} NegPowIsThreeFold(c: Point, k: nat)
    ensures RotPow(c, -(k as int)) == RotPow(c, 3 * k)
    decreases k
  {
    if k > 0 {
      var b := RotStepBack(c);
      assert RotPow(c, -(k as int)) == RotPow(b, -((k - 1) as int));
      NegPowIsThreeFold(b, k - 1);
      assert b == RotPow(c, 3);
      RotPowAdd(c, 3, 3 * (k - 1));
    }
  }

  /** A negative rotation index turns the other way: -k turns are 3k turns,
      and they undo k turns in either order. */
  lemma NegativeTurns(local: Point, size: real, k: nat)
    ensures Rotate(local, size, -(k as int)) == Rotate(local, size, 3 * k)
    ensures Rotate(Rotate(local, size, -(k as int)), size, k) == local
    ensures Rotate(Rotate(local, size, k), size, -(k as int)) == local
  {
    var half := Point(0.5 * size, 0.5 * size);
    NegPowIsThreeFold(Sub(local, half), k);
    RotateCompose(local, size, 3 * k, k);
    MultipleOfFourTurnsIdentity(local, size, k);
    var q := Rotate(local, size, k);
    NegPowIsThreeFold(Sub(q, half), k);
    RotateCompose(local, size, k, 3 * k);
  }

  /** A point of the patch whose first corner is `origin` and whose side is
      `size` lands, before noise, inside the rotated patch square, for any
      rotation index, negative ones included. */
  lemma LocalTransformKeepsPatch(p: Point, origin: Point, size: real, k: int)
    requires InBox(p, Box(origin.x, origin.y, origin.x + size, origin.y + size))
    ensures InSquare(LocalTransform(p, origin, size, k), size)
  {
    assert InSquare(Sub(p, origin), size);
    if k >= 0 {
      RotateSquareOnto(size, k);
    } else {
      NegativeTurns(Sub(p, origin), size, -k);
      RotateSquareOnto(size, 3 * -k);
    }
  }
}
