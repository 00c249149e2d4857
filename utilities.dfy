/**
 * A mutable two-dimensional vector with real components. Operators that
 * build a new vector are methods returning a fresh object; in-place
 * operators change the receiver's fields and nothing else.
 */
module Utilities {
  import opened Exceptions

  class Vec2 {
    var x: real
    var y: real

    /** A vector with the given components, (0, 0) by default. */
    constructor (x: real := 0.0, y: real := 0.0)
      ensures this.x == x && this.y == y
    {
      this.x := x;
      this.y := y;
    }

    /** Component `key`: x for 0, y for 1; any other key raises InvalidKey. */
    function Get(key: int): (r: Result<real>)
      reads this
      ensures r.Ok? <==> key == 0 || key == 1
      ensures r.Err? ==> r.error == InvalidKey
      ensures key == 0 ==> r.value == x
      ensures key == 1 ==> r.value == y
    {
      if key == 0 then Ok(x)
      else if key == 1 then Ok(y)
      else Err(InvalidKey)
    }

    /** Sets component `key` to `value`; any other key raises InvalidKey and
        leaves the vector as it was. */
    method Set(key: int, value: real) returns (r: Outcome)
      modifies this
      ensures r.Pass? <==> key == 0 || key == 1
      ensures r.Fail? ==> r.error == InvalidKey
      ensures r.Pass? ==> Get(key) == Ok(value)
      ensures key == 0 ==> y == old(y)
      ensures key == 1 ==> x == old(x)
      ensures r.Fail? ==> x == old(x) && y == old(y)
    {
      if key == 0 {
        x := value;
        r := Pass;
      } else if key == 1 {
        y := value;
        r := Pass;
      } else {
        r := Fail(InvalidKey);
      }
    }

    /** `self + other`: a new vector; both operands are left unchanged. */
    method Add(other: Vec2) returns (r: Vec2)
      ensures fresh(r)
      ensures r.x == x + other.x && r.y == y + other.y
    {
      r := new Vec2(x + other.x, y + other.y);
    }

    /** `self += other`. When `other` is the receiver itself, the vector is
        doubled. */
    method AddInPlace(other: Vec2)
      modifies this
      ensures x == old(x) + old(other.x) && y == old(y) + old(other.y)
    {
      x := x + other.x;
      y := y + other.y;
    }

    /** `self -= other`. When `other` is the receiver itself, the vector
        becomes (0, 0). */
    method SubtractInPlace(other: Vec2)
      modifies this
      ensures x == old(x) - old(other.x) && y == old(y) - old(other.y)
    {
      x := x - other.x;
      y := y - other.y;
    }

    /** `self * val`: a new vector with both components scaled. */
    method Mul(val: real) returns (r: Vec2)
      ensures fresh(r)
      ensures r.x == x * val && r.y == y * val
    {
      r := new Vec2(Get(0).value * val, Get(1).value * val);
    }

    /** `self / val`: a new vector with both components divided. */
    method Div(val: real) returns (r: Vec2)
      requires val != 0.0
      ensures fresh(r)
      ensures r.x == x / val && r.y == y / val
    {
      r := new Vec2(Get(0).value / val, Get(1).value / val);
    }

    /** `self *= val`, through the indexed setter. */
    method MulInPlace(val: real)
      modifies this
      ensures x == old(x) * val && y == old(y) * val
    {
      var _ := Set(0, Get(0).value * val);
      var _ := Set(1, Get(1).value * val);
    }

    /** `self /= val`, through the indexed setter. */
    method DivInPlace(val: real)
      requires val != 0.0
      modifies this
      ensures x == old(x) / val && y == old(y) / val
    {
      var _ := Set(0, Get(0).value / val);
      var _ := Set(1, Get(1).value / val);
    }

    /** `self == other`: both components agree. */
    function Eq(other: Vec2): (r: bool)
      reads this, other
      ensures r <==> Get(0) == other.Get(0) && Get(1) == other.Get(1)
    {
      x == other.x && y == other.y
    }

    /** `self != other`: some component differs. */
    function Ne(other: Vec2): (r: bool)
      reads this, other
      ensures r <==> !Eq(other)
    {
      x != other.x || y != other.y
    }

    /** The square of the Euclidean length, x ** 2 + y ** 2. */
    function LengthSquared(): (r: real)
      reads this
      ensures r >= 0.0
      ensures r == 0.0 <==> x == 0.0 && y == 0.0
    {
      Square(x) + Square(y)
    }
  }

  /** `a ** 2`: never negative, and zero only at zero. */
  function Square(a: real): (r: real)
    ensures r >= 0.0
    ensures r == 0.0 <==> a == 0.0
  {
    ZeroProduct(a, a);
    SameSignProduct(a, a);
    a * a
  }

  lemma ZeroProduct(a: real, b: real)
    ensures a * b == 0.0 <==> a == 0.0 || b == 0.0
  {
  }

  lemma SameSignProduct(a: real, b: real)
    requires (a >= 0.0 && b >= 0.0) || (a <= 0.0 && b <= 0.0)
    ensures a * b >= 0.0
  {
    if a < 0.0 {
      assert a * b == (-a) * (-b);
    }
  }

  /** Equality of vectors is an equivalence relation on their values. */
  lemma EqIsEquivalence(u: Vec2, v: Vec2, w: Vec2)
    ensures u.Eq(u)
    ensures u.Eq(v) ==> v.Eq(u)
    ensures u.Eq(v) && v.Eq(w) ==> u.Eq(w)
  {
  }

  /** Multiplying in place and then dividing in place by the same nonzero
      factor restores the vector (in exact arithmetic). */
  method ScaleRoundTrip(v: Vec2, val: real)
    requires val != 0.0
    modifies v
    ensures v.x == old(v.x) && v.y == old(v.y)
  {
    v.MulInPlace(val);
    v.DivInPlace(val);
  }

  /** Adding and then subtracting a different vector in place restores the
      receiver and leaves the other vector unchanged. */
  method AddSubtractRoundTrip(v: Vec2, w: Vec2)
    requires v != w
    modifies v
    ensures v.x == old(v.x) && v.y == old(v.y)
    ensures w.x == old(w.x) && w.y == old(w.y)
  {
    v.AddInPlace(w);
    v.SubtractInPlace(w);
  }

  /** The in-place sum agrees with the sum that builds a new vector, also
      when a vector is added to itself. */
  method AddInPlaceAgreesWithAdd(v: Vec2, w: Vec2) returns (sum: Vec2)
    modifies v
    ensures sum.Eq(v)
  {
    sum := v.Add(w);
    v.AddInPlace(w);
  }
}
