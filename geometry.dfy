/**
 * Points, vectors and line segments in the plane.
 *
 * Coordinates are exact reals: the model does not follow IEEE-754 rounding,
 * and square roots are never computed. Where the code needs a length, the
 * caller supplies it as a non-negative real whose square is the squared length.
 */
module Geometry {

  /** Number.EPSILON, the gap between 1 and the next double: exactly 2^-52. */
  const Epsilon: real := 0.0000000000000002220446049250313080847263336181640625

  function Abs(a: real): real { if a < 0.0 then -a else a }

  /** A 2D vector; the operations below never change their operands. */
  datatype Vector = Vector(x: real, y: real)

  const Zero := Vector(0.0, 0.0)

  function Add(u: Vector, v: Vector): Vector {
    Vector(u.x + v.x, u.y + v.y)
  }

  function Subtract(u: Vector, v: Vector): Vector {
    Vector(u.x - v.x, u.y - v.y)
  }

  /** Subtracting v undoes adding v, so u - v is the one vector r with r + v == u. */
  lemma SubtractUndoesAdd(u: Vector, v: Vector)
    ensures Add(Subtract(u, v), v) == u
    ensures forall r: Vector :: Add(r, v) == u ==> r == Subtract(u, v)
  {
  }

  /**
   * Real multiplication under a name of its own: the solver then treats each
   * product of coordinates as a single term, which keeps squares manageable.
   */
  function Mul(a: real, b: real): real { a * b }

  function Dot(u: Vector, v: Vector): real {
    Mul(u.x, v.x) + Mul(u.y, v.y)
  }

  /** The scalar (z-component) form of the 2D cross product. */
  function Cross(u: Vector, v: Vector): real {
    Mul(u.x, v.y) - Mul(u.y, v.x)
  }

  function Negate(v: Vector): Vector { Vector(-v.x, -v.y) }

  function Scale(t: real, v: Vector): Vector { Vector(Mul(t, v.x), Mul(t, v.y)) }

  lemma AddCommutative(u: Vector, v: Vector)
    ensures Add(u, v) == Add(v, u)
    ensures Add(u, v).x == u.x + v.x && Add(u, v).y == u.y + v.y
  {
  }

  lemma SubtractAntisymmetric(u: Vector, v: Vector)
    ensures Subtract(u, v) == Negate(Subtract(v, u))
    ensures Subtract(v, v) == Zero
  {
  }

  lemma MulPositive(a: real, b: real)
    requires a > 0.0 && b > 0.0
    ensures Mul(a, b) > 0.0
  {
  }

  /** A square is never negative, and is positive for a != 0. */
  lemma Square(a: real)
    ensures Mul(a, a) >= 0.0
    ensures a != 0.0 ==> Mul(a, a) > 0.0
    ensures a == 0.0 ==> Mul(a, a) == 0.0
  {
    if a > 0.0 {
      MulPositive(a, a);
    } else if a < 0.0 {
      MulPositive(-a, -a);
      assert Mul(a, a) == Mul(-a, -a);
    }
  }

  /** Multiplying by a positive s keeps the comparisons of u with 0 and with 1. */
  lemma ScaleCompare(u: real, s: real)
    requires s > 0.0
    ensures Mul(u, s) < 0.0 <==> u < 0.0
    ensures Mul(u, s) <= s <==> u <= 1.0
  {
    if u > 0.0 {
      MulPositive(u, s);
    } else if u < 0.0 {
      MulPositive(-u, s);
      assert Mul(u, s) == -Mul(-u, s);
    } else {
      assert Mul(u, s) == 0.0;
    }
    if u > 1.0 {
      MulPositive(u - 1.0, s);
      assert Mul(u, s) == Mul(u - 1.0, s) + s;
    } else if u < 1.0 {
      MulPositive(1.0 - u, s);
      assert Mul(u, s) == s - Mul(1.0 - u, s);
    }
  }

  lemma DotSymmetric(u: Vector, v: Vector)
    ensures Dot(u, v) == Dot(v, u)
  {
  }

  /** The dot product of a vector with itself is its squared length: never negative, zero only for Zero. */
  lemma DotSelf(v: Vector)
    ensures Dot(v, v) >= 0.0
    ensures Dot(v, v) == 0.0 <==> v == Zero
  {
    Square(v.x);
    Square(v.y);
  }

  lemma SquaredDistanceZero(a: Vector, b: Vector)
    ensures Dot(Subtract(b, a), Subtract(b, a)) >= 0.0
    ensures Dot(Subtract(b, a), Subtract(b, a)) == 0.0 <==> a == b
  {
    DotSelf(Subtract(b, a));
    SubtractZero(b, a);
  }

  lemma SubtractZero(u: Vector, v: Vector)
    ensures Subtract(u, v) == Zero <==> u == v
  {
  }

  lemma CrossAntisymmetric(u: Vector, v: Vector)
    ensures Cross(u, v) == -Cross(v, u)
    ensures Cross(v, v) == 0.0
  {
  }

  /** A mutable point: moveBy changes its coordinates in place. */
  class Point {
    var x: real
    var y: real

    constructor (x: real, y: real)
      ensures this.x == x && this.y == y
    {
      this.x := x;
      this.y := y;
    }

    /** The point read as a vector, as the code does when it passes points to Vector.subtract. */
    function AsVector(): Vector
      reads this
    {
      Vector(x, y)
    }

    /** The quantity under the square root of distanceTo. */
    function SquaredDistanceTo(other: Point): (d: real)
      reads this, other
      ensures d >= 0.0
      ensures d == 0.0 <==> AsVector() == other.AsVector()
    {
      SquaredDistanceZero(AsVector(), other.AsVector());
      Dot(Subtract(other.AsVector(), AsVector()), Subtract(other.AsVector(), AsVector()))
    }

    method MoveBy(dx: real, dy: real)
      modifies this
      ensures x == old(x) + dx && y == old(y) + dy
    {
      x := x + dx;
      y := y + dy;
    }
  }

  lemma SquaredDistanceSymmetric(a: Point, b: Point)
    ensures a.SquaredDistanceTo(b) == b.SquaredDistanceTo(a)
    ensures a.SquaredDistanceTo(a) == 0.0
  {
  }

  /**
   * A segment between two shared Point references. The direction vector is
   * taken once, at construction, and is not recomputed when an endpoint moves.
   */
  class LineSegment {
    var startPoint: Point
    var endPoint: Point
    var vector: Vector

    constructor (startPoint: Point, endPoint: Point)
      ensures this.startPoint == startPoint && this.endPoint == endPoint
      ensures InSync()
    {
      this.startPoint := startPoint;
      this.endPoint := endPoint;
      this.vector := Subtract(endPoint.AsVector(), startPoint.AsVector());
    }

    /** The stored vector still equals end - start for the endpoints' current coordinates. */
    ghost predicate InSync()
      reads this, startPoint, endPoint
    {
      vector == Subtract(endPoint.AsVector(), startPoint.AsVector())
    }

    /**
     * containsPoint as written: the dot product of the stored vector with
     * p - start must not be negative and must not exceed the vector's LENGTH
     * (not its square), and the cross product must be below Epsilon in
     * magnitude. For a non-negative dot product, "dot > length" is decided
     * here as "dot * dot > squared length" (see BeyondLength), so no square
     * root is taken.
     */
    function ContainsPoint(p: Point): (r: bool)
      reads this, startPoint, p
      ensures r ==> Dot(vector, Subtract(p.AsVector(), startPoint.AsVector())) >= 0.0
      ensures r ==> Abs(Cross(vector, Subtract(p.AsVector(), startPoint.AsVector()))) < Epsilon
      ensures p.AsVector() == startPoint.AsVector() ==> r
    {
      var toPoint := Subtract(p.AsVector(), startPoint.AsVector());
      var dot := Dot(vector, toPoint);
      DotSelf(vector);
      if dot < 0.0 || Mul(dot, dot) > Dot(vector, vector) then
        false
      else
        Abs(Cross(vector, toPoint)) < Epsilon
    }

    /**
     * containsPoint with the projection bound compared against the squared
     * length; a segment of length zero contains only its start point.
     */
    function ContainsPointIntended(p: Point): (r: bool)
      reads this, startPoint, p
      ensures p.AsVector() == startPoint.AsVector() ==> r
      ensures vector == Zero ==> (r <==> p.AsVector() == startPoint.AsVector())
    {
      var toPoint := Subtract(p.AsVector(), startPoint.AsVector());
      var dot := Dot(vector, toPoint);
      if vector == Zero then
        SubtractZero(p.AsVector(), startPoint.AsVector());
        toPoint == Zero
      else if dot < 0.0 || dot > Dot(vector, vector) then
        false
      else
        Abs(Cross(vector, toPoint)) < Epsilon
    }
  }

  /**
   * Moving the end point of a segment leaves the stored vector as it was;
   * the segment stays in sync only if the move is zero or both endpoints are
   * the same Point object.
   */
  method MoveEndPoint(seg: LineSegment, dx: real, dy: real)
    requires seg.InSync()
    modifies seg.endPoint
    ensures seg.vector == old(seg.vector)
    ensures seg.startPoint == old(seg.startPoint) && seg.endPoint == old(seg.endPoint)
    ensures seg.endPoint.x == old(seg.endPoint.x) + dx && seg.endPoint.y == old(seg.endPoint.y) + dy
    ensures seg.InSync() <==> (dx == 0.0 && dy == 0.0) || seg.startPoint == seg.endPoint
  {
    seg.endPoint.MoveBy(dx, dy);
  }

  /**
   * Moving the start point of a segment leaves the stored vector as it was;
   * the segment stays in sync only if the move is zero or both endpoints are
   * the same Point object.
   */
  method MoveStartPoint(seg: LineSegment, dx: real, dy: real)
    requires seg.InSync()
    modifies seg.startPoint
    ensures seg.vector == old(seg.vector)
    ensures seg.startPoint == old(seg.startPoint) && seg.endPoint == old(seg.endPoint)
    ensures seg.startPoint.x == old(seg.startPoint.x) + dx && seg.startPoint.y == old(seg.startPoint.y) + dy
    ensures seg.InSync() <==> (dx == 0.0 && dy == 0.0) || seg.startPoint == seg.endPoint
  {
    seg.startPoint.MoveBy(dx, dy);
  }

  /**
   * ContainsPoint is the test of containsPoint with the length itself as the
   * bound, for every point: len is the non-negative root of the squared length.
   */
  lemma ContainsPointLengthForm(seg: LineSegment, p: Point, len: real)
    requires len >= 0.0 && Mul(len, len) == Dot(seg.vector, seg.vector)
    ensures var toPoint := Subtract(p.AsVector(), seg.startPoint.AsVector());
      var dot := Dot(seg.vector, toPoint);
      seg.ContainsPoint(p) <==> !(dot < 0.0 || dot > len) && Abs(Cross(seg.vector, toPoint)) < Epsilon
  {
    var dot := Dot(seg.vector, Subtract(p.AsVector(), seg.startPoint.AsVector()));
    if dot >= 0.0 {
      BeyondLength(dot, len, seg.vector);
    }
  }

  /**
   * As written, a segment whose endpoints coincided at construction contains
   * every point: the dot product and the cross product are both 0.
   */
  lemma DegenerateContainsEverything(seg: LineSegment, p: Point)
    requires seg.vector == Zero
    ensures seg.ContainsPoint(p)
  {
    var toPoint := Subtract(p.AsVector(), seg.startPoint.AsVector());
    assert Dot(seg.vector, toPoint) == 0.0 && Cross(seg.vector, toPoint) == 0.0;
  }

  /**
   * The staleness scenario end to end: a segment from (0, 0) to (1, 0) whose
   * end point is then moved to (2, 0) keeps the vector (1, 0) it took at
   * construction, which no longer equals end - start.
   */
  method StaleAfterMove() returns (before: Vector, after: Vector, inSync: bool)
    ensures before == after == Vector(1.0, 0.0)
    ensures !inSync
  {
    var startPoint := new Point(0.0, 0.0);
    var endPoint := new Point(1.0, 0.0);
    var segment := new LineSegment(startPoint, endPoint);
    before := segment.vector;
    MoveEndPoint(segment, 1.0, 0.0);
    after := segment.vector;
    assert startPoint.AsVector() == Zero && endPoint.AsVector() == Vector(2.0, 0.0);
    inSync := after == Subtract(endPoint.AsVector(), startPoint.AsVector());
  }

  /** A point at parameter t along the segment's stored vector. */
  ghost predicate AtParameter(seg: LineSegment, p: Point, t: real)
    reads seg, seg.startPoint, p
  {
    p.AsVector() == Add(seg.startPoint.AsVector(), Scale(t, seg.vector))
  }

  lemma ProjectionAt(seg: LineSegment, p: Point, t: real)
    requires AtParameter(seg, p, t)
    ensures Dot(seg.vector, Subtract(p.AsVector(), seg.startPoint.AsVector())) == Mul(t, Dot(seg.vector, seg.vector))
    ensures Cross(seg.vector, Subtract(p.AsVector(), seg.startPoint.AsVector())) == 0.0
  {
    assert Subtract(p.AsVector(), seg.startPoint.AsVector()) == Scale(t, seg.vector);
  }

  /**
   * As written, a point on the segment's line at parameter t is accepted
   * exactly when 0 <= t and t * len <= 1, where len is the segment's length:
   * a segment longer than 1 accepts only the part with t <= 1 / len, so it
   * rejects its own end point, and a segment longer than 2 rejects most of
   * itself.
   */
  lemma {:induction false} ContainsPointAsWritten(seg: LineSegment, p: Point, t: real, len: real)
    requires len > 0.0 && Mul(len, len) == Dot(seg.vector, seg.vector)
    requires AtParameter(seg, p, t)
    ensures seg.ContainsPoint(p) <==> 0.0 <= t && Mul(t, len) <= 1.0
  {
    var dot := Dot(seg.vector, Subtract(p.AsVector(), seg.startPoint.AsVector()));
    ProjectionAt(seg, p, t);
    Square(len);
    ScaleCompare(t, Mul(len, len));
    ScaleCompare(Mul(t, len), len);
    assert dot == Mul(Mul(t, len), len);
    if dot >= 0.0 {
      BeyondLength(dot, len, seg.vector);
    }
  }

  /**
   * With the squared-length bound, a point on the segment's line at parameter
   * t is accepted exactly when 0 <= t <= 1, i.e. when it lies between the
   * endpoints the vector was taken from.
   */
  lemma {:induction false} ContainsPointIntendedOnLine(seg: LineSegment, p: Point, t: real)
    requires seg.vector != Zero
    requires AtParameter(seg, p, t)
    ensures seg.ContainsPointIntended(p) <==> 0.0 <= t <= 1.0
  {
    ProjectionAt(seg, p, t);
    var sq := Dot(seg.vector, seg.vector);
    DotSelf(seg.vector);
    assert sq > 0.0;
    if t < 0.0 {
      assert t * sq < 0.0;
    }
    if t > 1.0 {
      assert t * sq > sq;
    }
    if 0.0 <= t <= 1.0 {
      assert 0.0 <= t * sq <= sq;
    }
  }

  /** Squaring is monotone on the non-negative reals. */
  lemma SquareMonotone(a: real, b: real)
    requires b >= 0.0
    ensures a >= b ==> Mul(a, a) >= Mul(b, b)
  {
    if a > b {
      MulPositive(a - b, a + b);
      assert Mul(a, a) - Mul(b, b) == Mul(a - b, a + b);
    }
  }

  /** Squaring is strictly monotone on the non-negative reals. */
  lemma SquareStrict(a: real, b: real)
    requires b >= 0.0
    ensures a > b ==> Mul(a, a) > Mul(b, b)
  {
    if a > b {
      MulPositive(a - b, a + b);
      assert Mul(a, a) - Mul(b, b) == Mul(a - b, a + b);
    }
  }

  /**
   * For a non-negative dot product and the length len of v, "dot exceeds the
   * length" and "dot squared exceeds the squared length" are the same test.
   */
  lemma BeyondLength(dot: real, len: real, v: Vector)
    requires dot >= 0.0 && len >= 0.0 && Mul(len, len) == Dot(v, v)
    ensures dot > len <==> Mul(dot, dot) > Dot(v, v)
  {
    SquareStrict(dot, len);
    SquareMonotone(len, dot);
  }

  /** The arithmetic of the usage example: dot product 20, squared length 50, cross product 0. */
  lemma UsageExampleVerdict(segment: LineSegment, query: Point)
    requires segment.startPoint.AsVector() == Zero && segment.vector == Vector(5.0, 5.0)
    requires query.AsVector() == Vector(2.0, 2.0)
    ensures !segment.ContainsPoint(query) && segment.ContainsPointIntended(query)
  {
    assert Subtract(query.AsVector(), segment.startPoint.AsVector()) == Vector(2.0, 2.0);
  }

  /**
   * The usage example at the end of the geometry file: the segment from (0, 0)
   * to (5, 5), queried at (2, 2). The code as written answers false; the
   * intended containment answers true.
   */
  method UsageExample() returns (asWritten: bool, intended: bool)
    ensures !asWritten && intended
  {
    var startPoint := new Point(0.0, 0.0);
    var endPoint := new Point(5.0, 5.0);
    var segment := new LineSegment(startPoint, endPoint);
    var query := new Point(2.0, 2.0);
    assert segment.vector == Vector(5.0, 5.0);
    UsageExampleVerdict(segment, query);
    asWritten := segment.ContainsPoint(query);
    intended := segment.ContainsPointIntended(query);
  }
}
