/** The helper types of physics.py: a 2D vector of reals and a size record. */
module Physics {
  import opened Wrappers

  /** Vector objects are never shared while mutated in the core, so a value type is enough. */
  datatype Vector = Vector(x: real, y: real)

  /** The Size named tuple. */
  datatype Size = Size(width: real, height: real)

  datatype IndexError = IndexError(message: string)

  /** Vector.__getitem__: index 0 is x, index 1 is y, anything else raises IndexError. */
  function Get(v: Vector, item: int): (r: Result<real, IndexError>)
    ensures r.Success? <==> item == 0 || item == 1
    ensures item == 0 ==> r == Success(v.x)
    ensures item == 1 ==> r == Success(v.y)
  {
    if item == 0 then Success(v.x)
    else if item == 1 then Success(v.y)
    else Failure(IndexError("Index out of range."))
  }

  /** What Python's iteration protocol (`x, y = v`) collects from __getitem__,
      starting at index i and stopping at the first IndexError. */
  function Unpack(v: Vector, i: nat): seq<real>
    requires i <= 2
    decreases 2 - i
  {
    match Get(v, i)
    case Failure(_) => []
    case Success(e) => [e] + Unpack(v, i + 1)
  }

  /** Unpacking a vector yields exactly its two components, in order. */
  lemma UnpackIsComponents(v: Vector)
    ensures Unpack(v, 0) == [v.x, v.y]
  {
    assert Unpack(v, 2) == [];
    assert Unpack(v, 1) == [v.y];
  }

  function MagnitudeSq(v: Vector): real
  {
    v.x * v.x + v.y * v.y
  }

  /** A squared length is never negative. */
  lemma MagnitudeSqNonNegative(v: Vector)
    ensures 0.0 <= MagnitudeSq(v)
  {
    SquareNonNegative(v.x);
    SquareNonNegative(v.y);
  }

  lemma SquareNonNegative(a: real)
    ensures 0.0 <= a * a
  {
    if a > 0.0 {
      MulPositive(a, a);
    } else if a < 0.0 {
      MulPositive(-a, -a);
    }
  }

  lemma MulPositive(a: real, b: real)
    requires 0.0 < a && 0.0 < b
    ensures 0.0 < a * b
  {
  }

  function Abs(v: real): (r: real)
    ensures 0.0 <= r && (r == v || r == -v)
  {
    if v < 0.0 then -v else v
  }

  function Add(a: Vector, b: Vector): Vector
  {
    Vector(a.x + b.x, a.y + b.y)
  }

  function Sub(a: Vector, b: Vector): Vector
  {
    Vector(a.x - b.x, a.y - b.y)
  }

  function Scale(v: Vector, scalar: real): Vector
  {
    Vector(v.x * scalar, v.y * scalar)
  }

  /** Subtraction and addition undo each other, in both orders. */
  lemma SubAddInverse(a: Vector, b: Vector)
    ensures Add(Sub(a, b), b) == a
    ensures Sub(Add(a, b), b) == a
    ensures Add(b, Sub(a, b)) == a
  {
  }

  /** Scaling multiplies the squared length by the square of the scalar. */
  lemma ScaleMagnitudeSq(v: Vector, scalar: real)
    ensures MagnitudeSq(Scale(v, scalar)) == scalar * scalar * MagnitudeSq(v)
  {
    calc {
      MagnitudeSq(Scale(v, scalar));
      (v.x * scalar) * (v.x * scalar) + (v.y * scalar) * (v.y * scalar);
      scalar * scalar * (v.x * v.x) + scalar * scalar * (v.y * v.y);
      scalar * scalar * MagnitudeSq(v);
    }
  }

  /** Vector.__lt__ */
  predicate Less(a: Vector, b: Vector)
  {
    MagnitudeSq(a) < MagnitudeSq(b)
  }

  /** Vector.__gt__ */
  predicate Greater(a: Vector, b: Vector)
  {
    MagnitudeSq(a) > MagnitudeSq(b)
  }

  /** Both comparisons order vectors by length only: they are each other's
      converse, and two vectors of one length are neither < nor > each other. */
  lemma CompareByLength(a: Vector, b: Vector)
    ensures Less(a, b) <==> Greater(b, a)
    ensures MagnitudeSq(a) == MagnitudeSq(b) <==> !Less(a, b) && !Greater(a, b)
    ensures !(Less(a, b) && Greater(a, b))
  {
  }

  /** For non-negative reals, comparing squares is comparing the numbers; this is
      why thresholds on `magnitude` (a square root) can be stated on `magnitude_sq`. */
  lemma SquaresOrdered(m: real, r: real)
    requires 0.0 <= m && 0.0 <= r
    ensures m * m < r * r <==> m < r
  {
    if m < r {
      MulPositive(r - m, r + m);
      assert r * r - m * m == (r - m) * (r + m);
    } else if r < m {
      MulPositive(m - r, m + r);
      assert m * m - r * r == (m - r) * (m + r);
    }
  }

  function DistSq(p: Vector, q: Vector): real
  {
    MagnitudeSq(Sub(p, q))
  }

  /** others[k] is at least as close to origin as every element, and strictly
      closer than every element before it. */
  ghost predicate FirstClosest(origin: Vector, others: seq<Vector>, k: nat)
  {
    && k < |others|
    && (forall j :: 0 <= j < |others| ==> DistSq(origin, others[k]) <= DistSq(origin, others[j]))
    && (forall j :: 0 <= j < k ==> DistSq(origin, others[k]) < DistSq(origin, others[j]))
  }

  /** Vector.closest as evidently intended: the first element nearest to origin,
      or None for no elements. The candidate is compared by its distance from origin. */
  method Closest(origin: Vector, others: seq<Vector>) returns (r: Option<Vector>)
    ensures r.None? <==> others == []
    ensures r.Some? ==> exists k: nat :: FirstClosest(origin, others, k) && others[k] == r.value
  {
    r := None;
    ghost var k := 0;
    var i := 0;
    while i < |others|
      invariant 0 <= i <= |others|
      invariant r.None? <==> i == 0
      invariant r.Some? ==> k < i && others[k] == r.value
      invariant r.Some? ==> forall j :: 0 <= j < i ==> DistSq(origin, others[k]) <= DistSq(origin, others[j])
      invariant r.Some? ==> forall j :: 0 <= j < k ==> DistSq(origin, others[k]) < DistSq(origin, others[j])
    {
      var other := others[i];
      if r.None? || Less(Sub(origin, other), Sub(origin, r.value)) {
        r := Some(other);
        k := i;
      }
      i := i + 1;
    }
    if r.Some? {
      assert FirstClosest(origin, others, k);
    }
  }

  /** The loop of Vector.closest as written, as a left fold over the elements:
      a candidate replaces the current minimum when its distance from origin is
      shorter than the length of the current minimum itself. */
  function ScanAsWritten(origin: Vector, others: seq<Vector>): Option<Vector>
    decreases |others|
  {
    if others == [] then None
    else
      var minimum := ScanAsWritten(origin, others[..|others| - 1]);
      var other := others[|others| - 1];
      if minimum.None? || Less(Sub(origin, other), minimum.value) then Some(other) else minimum
  }

  /** Vector.closest exactly as the loop is written. */
  method ClosestAsWritten(origin: Vector, others: seq<Vector>) returns (r: Option<Vector>)
    ensures r == ScanAsWritten(origin, others)
  {
    r := None;
    var i := 0;
    while i < |others|
      invariant 0 <= i <= |others|
      invariant r == ScanAsWritten(origin, others[..i])
    {
      var other := others[i];
      assert others[..i + 1][..i] == others[..i];
      if r.None? || Less(Sub(origin, other), r.value) {
        r := Some(other);
      }
      i := i + 1;
    }
    assert others[..i] == others;
  }

  lemma DistanceToItself()
    ensures DistSq(Vector(10.0, 0.0), Vector(10.0, 0.0)) == 0.0
  {
  }

  lemma DistanceToOne()
    ensures DistSq(Vector(10.0, 0.0), Vector(1.0, 0.0)) == 81.0
  {
    assert Sub(Vector(10.0, 0.0), Vector(1.0, 0.0)) == Vector(9.0, 0.0);
    assert MagnitudeSq(Vector(9.0, 0.0)) == 81.0;
  }

  lemma LengthOfTen()
    ensures MagnitudeSq(Vector(10.0, 0.0)) == 100.0
  {
  }

  lemma ScanPicksOne()
    ensures ScanAsWritten(Vector(10.0, 0.0), [Vector(10.0, 0.0), Vector(1.0, 0.0)]) == Some(Vector(1.0, 0.0))
  {
    var origin := Vector(10.0, 0.0);
    var others := [Vector(10.0, 0.0), Vector(1.0, 0.0)];
    assert others[..1] == [Vector(10.0, 0.0)];
    assert others[..1][..0] == [];
    assert ScanAsWritten(origin, others[..1]) == Some(Vector(10.0, 0.0));
    DistanceToOne();
    LengthOfTen();
    assert Less(Sub(origin, others[1]), Vector(10.0, 0.0));
  }

  /** The loop as written can return an element that is not the closest one:
      from (10, 0), the point (10, 0) itself is at distance 0, yet (1, 0) is
      returned because its squared distance 81 is compared with the squared
      length 100 of (10, 0) rather than with its squared distance 0. */
  lemma ClosestAsWrittenMisses()
    ensures ScanAsWritten(Vector(10.0, 0.0), [Vector(10.0, 0.0), Vector(1.0, 0.0)]) == Some(Vector(1.0, 0.0))
    ensures DistSq(Vector(10.0, 0.0), Vector(10.0, 0.0)) < DistSq(Vector(10.0, 0.0), Vector(1.0, 0.0))
  {
    ScanPicksOne();
    DistanceToItself();
    DistanceToOne();
  }
}
