/** The vector algebra of src/utils/vec3.rs (the parts that need no square root). */
module Vectors {
  import opened Wrappers
  import Utils

  /** A point, direction or colour support vector. */
  datatype Vec3 = Vec3(x: real, y: real, z: real)

  function Zero(): Vec3 { Vec3(0.0, 0.0, 0.0) }

  function Add(a: Vec3, b: Vec3): Vec3 { Vec3(a.x + b.x, a.y + b.y, a.z + b.z) }

  function Sub(a: Vec3, b: Vec3): Vec3 { Vec3(a.x - b.x, a.y - b.y, a.z - b.z) }

  /** `Mul for Vec3`: the componentwise (Hadamard) product. */
  function Mul(a: Vec3, b: Vec3): Vec3 { Vec3(a.x * b.x, a.y * b.y, a.z * b.z) }

  /** `Div for Vec3`: componentwise; a zero component (an IEEE infinity in the source) is excluded. */
  function Div(a: Vec3, b: Vec3): Vec3
    requires b.x != 0.0 && b.y != 0.0 && b.z != 0.0
  {
    Vec3(a.x / b.x, a.y / b.y, a.z / b.z)
  }

  /** `Mul<f64> for Vec3`. */
  function Scale(v: Vec3, s: real): Vec3 { Vec3(v.x * s, v.y * s, v.z * s) }

  /** `Div<f64> for Vec3`. */
  function DivScalar(v: Vec3, s: real): Vec3
    requires s != 0.0
  {
    Vec3(v.x / s, v.y / s, v.z / s)
  }

  function Neg(v: Vec3): Vec3 { Vec3(-v.x, -v.y, -v.z) }

  function SquaredLength(v: Vec3): real { v.x * v.x + v.y * v.y + v.z * v.z }

  function Dot(a: Vec3, b: Vec3): real { a.x * b.x + a.y * b.y + a.z * b.z }

  function Cross(a: Vec3, b: Vec3): Vec3
  {
    Vec3(a.y * b.z - a.z * b.y, a.z * b.x - a.x * b.z, a.x * b.y - a.y * b.x)
  }

  /** `reflect`: v - (n * 2) * (v . n), in the source's order of operations. */
  function Reflect(v: Vec3, n: Vec3): Vec3 { Sub(v, Scale(Scale(n, 2.0), Dot(v, n))) }

  /** `Index<usize>`: components 0, 1, 2 are x, y, z; any other index panics. */
  function Index(v: Vec3, i: nat): (r: Result<real>)
    ensures r.Ok? <==> i < 3
  {
    if i == 0 then Ok(v.x)
    else if i == 1 then Ok(v.y)
    else if i == 2 then Ok(v.z)
    else Panic("Index out of bound")
  }

  /** The component for an index already known to be in range. */
  function Coord(v: Vec3, i: nat): real
    requires i < 3
  {
    if i == 0 then v.x else if i == 1 then v.y else v.z
  }

  /** A write through `IndexMut<usize>`: the vector with component i replaced; other indices panic. */
  function SetIndex(v: Vec3, i: nat, value: real): (r: Result<Vec3>)
    ensures r.Ok? <==> i < 3
  {
    if i == 0 then Ok(v.(x := value))
    else if i == 1 then Ok(v.(y := value))
    else if i == 2 then Ok(v.(z := value))
    else Panic("Index out of bound")
  }

  /** Reading an index back after writing it yields the written value; the other components are untouched. */
  lemma IndexAfterSetIndex(v: Vec3, i: nat, value: real, k: nat)
    requires i < 3
    ensures SetIndex(v, i, value).Ok?
    ensures Index(SetIndex(v, i, value).value, k) == (if k == i then Ok(value) else Index(v, k))
  {
  }

  lemma IndexIsCoord(v: Vec3, i: nat)
    requires i < 3
    ensures Index(v, i) == Ok(Coord(v, i))
  {
  }

  lemma DotSymmetric(a: Vec3, b: Vec3)
    ensures Dot(a, b) == Dot(b, a)
  {
  }

  lemma DotSelfIsSquaredLength(v: Vec3)
    ensures Dot(v, v) == SquaredLength(v)
    ensures SquaredLength(v) >= 0.0
  {
  }

  /** A square is non-negative, and zero only at zero. */
  lemma Square(a: real)
    ensures a * a >= 0.0
    ensures a != 0.0 ==> a * a > 0.0
  {
    if a > 0.0 {
      Utils.MulPos(a, a);
    } else if a < 0.0 {
      Utils.MulNeg(a, a);
    }
  }

  /** The cross product is orthogonal to both of its arguments. */
  lemma CrossOrthogonal(a: Vec3, b: Vec3)
    ensures Dot(Cross(a, b), a) == 0.0
    ensures Dot(Cross(a, b), b) == 0.0
  {
  }

  /** Lagrange's identity: |a|^2 |b|^2 - (a . b)^2 == |a x b|^2, hence Cauchy-Schwarz. */
  lemma Lagrange(a: Vec3, b: Vec3)
    ensures SquaredLength(a) * SquaredLength(b) - Dot(a, b) * Dot(a, b) == SquaredLength(Cross(a, b))
    ensures Dot(a, b) * Dot(a, b) <= SquaredLength(a) * SquaredLength(b)
  {
    DotSelfIsSquaredLength(Cross(a, b));
  }

  /** For a unit normal, reflection negates the component along the normal. */
  lemma ReflectAlongNormal(v: Vec3, n: Vec3)
    requires Dot(n, n) == 1.0
    ensures Dot(Reflect(v, n), n) == -Dot(v, n)
  {
    var d := Dot(v, n);
    calc {
      Dot(Reflect(v, n), n);
      (v.x - n.x * 2.0 * d) * n.x + (v.y - n.y * 2.0 * d) * n.y + (v.z - n.z * 2.0 * d) * n.z;
      d - 2.0 * d * (n.x * n.x + n.y * n.y + n.z * n.z);
      d - 2.0 * d * Dot(n, n);
    }
  }

  /** For a unit normal, reflection preserves the squared length. */
  lemma ReflectPreservesLength(v: Vec3, n: Vec3)
    requires Dot(n, n) == 1.0
    ensures SquaredLength(Reflect(v, n)) == SquaredLength(v)
  {
    var d := Dot(v, n);
    var r := Reflect(v, n);
    assert r == Sub(v, Scale(n, 2.0 * d));
    calc {
      SquaredLength(r);
      Dot(v, v) - 4.0 * d * Dot(v, n) + 4.0 * d * d * Dot(n, n);
      Dot(v, v);
    }
  }

  /** One draw of `Uniform::from(from..to)`, given the underlying uniform draw u in [0, 1). */
  function Uniform(from: real, to: real, u: real): real
  {
    from + u * (to - from)
  }

  /** A uniform draw into a non-empty half-open range lands in that range. */
  lemma UniformInRange(from: real, to: real, u: real)
    requires from < to && 0.0 <= u < 1.0
    ensures from <= Uniform(from, to, u) < to
  {
    var w := to - from;
    assert Uniform(from, to, u) == from + u * w;
    Utils.MulNonneg(u, w);
    Utils.MulLt(u, 1.0, w);
    assert 1.0 * w == w;
  }

  /** The range [0, 1) every underlying random draw lies in. */
  predicate UnitDraw(u: real) { 0.0 <= u < 1.0 }

  predicate UnitDraws(d: Vec3) { UnitDraw(d.x) && UnitDraw(d.y) && UnitDraw(d.z) }

  /** `random_range(from, to)`: three independent uniform draws, one per component. */
  function RandomRange(from: real, to: real, d: Vec3): (r: Vec3)
    requires from < to && UnitDraws(d)
    ensures from <= r.x < to && from <= r.y < to && from <= r.z < to
  {
    UniformInRange(from, to, d.x);
    UniformInRange(from, to, d.y);
    UniformInRange(from, to, d.z);
    Vec3(Uniform(from, to, d.x), Uniform(from, to, d.y), Uniform(from, to, d.z))
  }

  /**
   * `random_in_unit_sphere`: draw `random_range(-1, 1)` until the point is strictly inside the
   * unit ball. `draws` are the successive underlying draws; the source loops until it succeeds,
   * the model answers None when the given draws run out first.
   */
  method RandomInUnitSphere(draws: seq<Vec3>) returns (r: Option<Vec3>)
    requires forall k :: 0 <= k < |draws| ==> UnitDraws(draws[k])
    ensures r.Some? ==> SquaredLength(r.value) < 1.0
    ensures r.Some? ==> exists k :: 0 <= k < |draws| && r.value == RandomRange(-1.0, 1.0, draws[k])
                                    && forall j :: 0 <= j < k ==> SquaredLength(RandomRange(-1.0, 1.0, draws[j])) >= 1.0
    ensures r.None? <==> forall k :: 0 <= k < |draws| ==> SquaredLength(RandomRange(-1.0, 1.0, draws[k])) >= 1.0
  {
    var k := 0;
    while k < |draws|
      invariant 0 <= k <= |draws|
      invariant forall j :: 0 <= j < k ==> SquaredLength(RandomRange(-1.0, 1.0, draws[j])) >= 1.0
    {
      var v := RandomRange(-1.0, 1.0, draws[k]);
      if SquaredLength(v) < 1.0 {
        return Some(v);
      }
      k := k + 1;
    }
    return None;
  }

  /** The candidate of `random_in_unit_disk` built from two underlying draws. */
  function DiskCandidate(d: (real, real)): Vec3
  {
    Vec3(Uniform(-1.0, 1.0, d.0), Uniform(-1.0, 1.0, d.1), 0.0)
  }

  /** `random_in_unit_disk`: like `RandomInUnitSphere`, with z fixed at 0. */
  method RandomInUnitDisk(draws: seq<(real, real)>) returns (r: Option<Vec3>)
    ensures r.Some? ==> r.value.z == 0.0 && SquaredLength(r.value) < 1.0
    ensures r.Some? ==> exists k :: 0 <= k < |draws| && r.value == DiskCandidate(draws[k])
                                    && forall j :: 0 <= j < k ==> SquaredLength(DiskCandidate(draws[j])) >= 1.0
    ensures r.None? <==> forall k :: 0 <= k < |draws| ==> SquaredLength(DiskCandidate(draws[k])) >= 1.0
  {
    var k := 0;
    while k < |draws|
      invariant 0 <= k <= |draws|
      invariant forall j :: 0 <= j < k ==> SquaredLength(DiskCandidate(draws[j])) >= 1.0
    {
      var v := DiskCandidate(draws[k]);
      if SquaredLength(v) < 1.0 {
        return Some(v);
      }
      k := k + 1;
    }
    return None;
  }
}
