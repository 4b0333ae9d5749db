/**
 * The geometric primitives of src/objects/: axis-aligned rectangles, spheres, moving spheres
 * and the interval logic of the constant medium. Each `hit` is a function of the primitive's
 * data and the query; the `Hittable` datatype dispatches to them.
 */
module Objects {
  import opened Wrappers
  import opened Vectors
  import opened Numerics
  import opened Rays
  import opened Bounding
  import opened Materials
  import Records
  import Utils

  // ---------------------------------------------------------------------------------------
  // Rectangles (src/objects/rectangles.rs)
  // ---------------------------------------------------------------------------------------

  /** The three rectangle kinds, named after the plane they lie parallel to. */
  datatype Plane = XY | XZ | YZ

  /** The axis of the first in-plane coordinate, from which `u` is taken. */
  function AxisA(p: Plane): (a: nat)
    ensures a < 3 && a != NormalAxis(p)
  {
    match p
    case XY => 0
    case XZ => 0
    case YZ => 1
  }

  /** The axis of the second in-plane coordinate, from which `v` is taken. */
  function AxisB(p: Plane): (b: nat)
    ensures b < 3 && b != NormalAxis(p) && b != AxisA(p)
  {
    match p
    case XY => 1
    case XZ => 2
    case YZ => 2
  }

  /** The axis the rectangle is perpendicular to: z, y and x respectively. */
  function NormalAxis(p: Plane): (n: nat)
    ensures n < 3
  {
    match p
    case XY => 2
    case XZ => 1
    case YZ => 0
  }

  /** The unit vector along an axis: the outward normal the rectangles pass on. */
  function UnitAxis(i: nat): (e: Vec3)
    requires i < 3
    ensures SquaredLength(e) == 1.0
    ensures Coord(e, i) == 1.0
  {
    if i == 0 then Vec3(1.0, 0.0, 0.0) else if i == 1 then Vec3(0.0, 1.0, 0.0) else Vec3(0.0, 0.0, 1.0)
  }

  /** The point lies on the closed rectangle [a0, a1] x [b0, b1] in the plane at height k. */
  predicate OnRect(p: Plane, a0: real, a1: real, b0: real, b1: real, k: real, point: Vec3)
  {
    && Coord(point, NormalAxis(p)) == k
    && a0 <= Coord(point, AxisA(p)) <= a1
    && b0 <= Coord(point, AxisB(p)) <= b1
  }

  /** A fraction of an interval: for a value inside a non-empty interval it lies in [0, 1]. */
  lemma FractionInUnit(x: real, lo: real, hi: real)
    requires lo < hi && lo <= x <= hi
    ensures 0.0 <= Ratio(x - lo, hi - lo) <= 1.0
  {
    var w := hi - lo;
    var f := Ratio(x - lo, w);
    assert f * w == x - lo;
    Utils.MulLt(f, 0.0, w);
    assert 0.0 * w == 0.0;
    Utils.MulLt(1.0, f, w);
    assert 1.0 * w == w;
  }

  /** The parameter at which the ray meets the plane at height k across axis n. */
  function PlaneTime(ray: Ray, n: nat, k: real): (t: real)
    requires n < 3 && Coord(ray.direction, n) != 0.0
    ensures Coord(At(ray, t), n) == k
  {
    var t := (k - Coord(ray.origin, n)) / Coord(ray.direction, n);
    AtCoord(ray, t, n);
    assert t * Coord(ray.direction, n) == k - Coord(ray.origin, n);
    t
  }

  /** `(x - lo) / (hi - lo)`: the fraction of the way from lo to hi. */
  function Fraction(x: real, lo: real, hi: real): (f: real)
    ensures lo != hi ==> f * (hi - lo) == x - lo
    ensures lo < hi && lo <= x <= hi ==> 0.0 <= f <= 1.0
  {
    assert lo < hi && lo <= x <= hi ==> 0.0 <= Ratio(x - lo, hi - lo) <= 1.0 by {
      if lo < hi && lo <= x <= hi { FractionInUnit(x, lo, hi); }
    }
    Ratio(x - lo, hi - lo)
  }

  /** The record of a rectangle hit at parameter `time`, with u, v the fractions along both ranges. */
  function RectRecord(p: Plane, a0: real, a1: real, b0: real, b1: real, ray: Ray, time: real, m: Material): (r: HitRecord)
    ensures r.point == At(ray, time) && r.time == time && r.material == m
    ensures && (r.normal == UnitAxis(NormalAxis(p)) || r.normal == Neg(UnitAxis(NormalAxis(p))))
            && (r.frontFace <==> Coord(ray.direction, NormalAxis(p)) < 0.0)
            && Dot(ray.direction, r.normal) <= 0.0
    ensures r.u == Fraction(Coord(r.point, AxisA(p)), a0, a1) && r.v == Fraction(Coord(r.point, AxisB(p)), b0, b1)
  {
    var n := NormalAxis(p);
    var point := At(ray, time);
    var x := Coord(point, AxisA(p));
    var y := Coord(point, AxisB(p));
    DotWithAxis(ray.direction, n);
    Records.NewRecord(ray, point, UnitAxis(n), time, Fraction(x, a0, a1), Fraction(y, b0, b1), m)
  }

  /**
   * `hit` of the three rectangle kinds: the ray meets the plane at t = (k - o) / d, which must
   * lie in the closed interval [tmin, tmax], at a point of the closed rectangle. A ray parallel
   * to the plane (d = 0) never meets it; the source divides by zero there.
   */
  function RectHit(p: Plane, a0: real, a1: real, b0: real, b1: real, k: real, m: Material,
                   ray: Ray, tmin: real, tmax: real): (r: Option<HitRecord>)
    ensures Coord(ray.direction, NormalAxis(p)) == 0.0 ==> r.None?
    ensures r.Some? ==> && r.value == RectRecord(p, a0, a1, b0, b1, ray, r.value.time, m)
                        && tmin <= r.value.time <= tmax
                        && OnRect(p, a0, a1, b0, b1, k, r.value.point)
  {
    var n := NormalAxis(p);
    if Coord(ray.direction, n) == 0.0 then None
    else
      var time := PlaneTime(ray, n, k);
      if time < tmin || time > tmax then None
      else
        var x := Coord(At(ray, time), AxisA(p));
        var y := Coord(At(ray, time), AxisB(p));
        if x < a0 || x > a1 || y < b0 || y > b1 then None
        else Some(RectRecord(p, a0, a1, b0, b1, ray, time, m))
  }

  lemma DotWithAxis(v: Vec3, i: nat)
    requires i < 3
    ensures Dot(v, UnitAxis(i)) == Coord(v, i)
  {
  }

  /**
   * A ray that is not parallel to the plane hits the rectangle exactly when it meets the closed
   * rectangle at some parameter in the closed interval [tmin, tmax].
   */
  lemma RectHitIffCrossing(p: Plane, a0: real, a1: real, b0: real, b1: real, k: real, m: Material,
                           ray: Ray, tmin: real, tmax: real)
    requires Coord(ray.direction, NormalAxis(p)) != 0.0
    ensures RectHit(p, a0, a1, b0, b1, k, m, ray, tmin, tmax).Some?
            <==> exists t :: tmin <= t <= tmax && OnRect(p, a0, a1, b0, b1, k, At(ray, t))
  {
    var r := RectHit(p, a0, a1, b0, b1, k, m, ray, tmin, tmax);
    if r.Some? {
      assert OnRect(p, a0, a1, b0, b1, k, At(ray, r.value.time));
    }
    if t :| tmin <= t <= tmax && OnRect(p, a0, a1, b0, b1, k, At(ray, t)) {
      var n := NormalAxis(p);
      var d := Coord(ray.direction, n);
      AtCoord(ray, t, n);
      assert t * d == k - Coord(ray.origin, n);
      assert t == PlaneTime(ray, n, k);
    }
  }

  /** `bounding_box` of the rectangles: the rectangle, padded by 0.0001 across its plane. */
  function RectBox(p: Plane, a0: real, a1: real, b0: real, b1: real, k: real): BoundingBox
  {
    match p
    case XY => BoundingBox(Vec3(a0, b0, k - 0.0001), Vec3(a1, b1, k + 0.0001))
    case XZ => BoundingBox(Vec3(a0, k - 0.0001, b0), Vec3(a1, k + 0.0001, b1))
    case YZ => BoundingBox(Vec3(k - 0.0001, a0, b0), Vec3(k + 0.0001, a1, b1))
  }

  /** Every point of the rectangle lies in its box. */
  lemma RectInBox(p: Plane, a0: real, a1: real, b0: real, b1: real, k: real, point: Vec3)
    requires OnRect(p, a0, a1, b0, b1, k, point)
    ensures ContainsPoint(RectBox(p, a0, a1, b0, b1, k), point)
  {
  }

  // ---------------------------------------------------------------------------------------
  // Spheres (src/objects/sphere.rs, src/objects/moving_sphere.rs)
  // ---------------------------------------------------------------------------------------

  /** The coefficients a t^2 + 2 b t + c of `hit`: the ray's squared distance to the centre minus radius^2. */
  datatype Quadratic = Quadratic(a: real, b: real, c: real)

  function SphereQuadratic(center: Vec3, radius: real, ray: Ray): Quadratic
  {
    var oc := Sub(ray.origin, center);
    Quadratic(SquaredLength(ray.direction), Dot(oc, ray.direction), SquaredLength(oc) - radius * radius)
  }

  function Discriminant(q: Quadratic): real
  {
    q.b * q.b - q.a * q.c
  }

  /** The point lies on the sphere. */
  predicate OnSphere(center: Vec3, radius: real, point: Vec3)
  {
    SquaredLength(Sub(point, center)) == radius * radius
  }

  /**
   * A positive discriminant needs a moving ray and a non-zero radius, so the divisions of `hit`
   * and of `get_hit_record` are defined.
   */
  lemma PositiveDiscriminant(center: Vec3, radius: real, ray: Ray)
    requires Discriminant(SphereQuadratic(center, radius, ray)) > 0.0
    ensures SquaredLength(ray.direction) > 0.0 && radius != 0.0
  {
    var oc := Sub(ray.origin, center);
    var a := SquaredLength(ray.direction);
    var b := Dot(oc, ray.direction);
    Lagrange(oc, ray.direction);
    DotSelfIsSquaredLength(ray.direction);
    assert Discriminant(SphereQuadratic(center, radius, ray)) == (b * b - SquaredLength(oc) * a) + a * (radius * radius);
    assert a * (radius * radius) > 0.0;
    NonZeroProduct(a, radius * radius);
  }

  lemma NonZeroProduct(x: real, y: real)
    requires x * y != 0.0
    ensures x != 0.0 && y != 0.0
  {
  }

  /** The two candidate parameters of `hit`, smaller first. */
  function NearRoot(env: Env, q: Quadratic): real
    requires q.a != 0.0
  {
    (-q.b - env.sqrt(Discriminant(q))) / q.a
  }

  function FarRoot(env: Env, q: Quadratic): real
    requires q.a != 0.0
  {
    (-q.b + env.sqrt(Discriminant(q))) / q.a
  }

  /**
   * The root selection shared by `Sphere::hit` and `MovingSphere::hit`: none unless the
   * discriminant is positive; the smaller root if it lies strictly inside (tmin, tmax), else the
   * larger one if it does.
   */
  function SphereRoot(env: Env, center: Vec3, radius: real, ray: Ray, tmin: real, tmax: real): (t: Option<real>)
    ensures Discriminant(SphereQuadratic(center, radius, ray)) <= 0.0 ==> t.None?
    ensures t.Some? ==> tmin < t.value < tmax
    ensures var q := SphereQuadratic(center, radius, ray);
            Discriminant(q) > 0.0 ==> (q.a > 0.0 &&
              if tmin < NearRoot(env, q) < tmax then t == Some(NearRoot(env, q))
              else if tmin < FarRoot(env, q) < tmax then t == Some(FarRoot(env, q))
              else t.None?)
  {
    var q := SphereQuadratic(center, radius, ray);
    var disc := Discriminant(q);
    if disc > 0.0 then
      PositiveDiscriminant(center, radius, ray);
      var root := env.sqrt(disc);
      var near := (-q.b - root) / q.a;
      if near < tmax && near > tmin then Some(near)
      else
        var far := (-q.b + root) / q.a;
        if far < tmax && far > tmin then Some(far) else None
    else None
  }

  lemma SquareOfSum(o: real, d: real, s: real)
    ensures (o + d * s) * (o + d * s) == o * o + 2.0 * (o * d) * s + (d * d) * (s * s)
  {
  }

  /** Along the ray the squared distance to the centre minus radius^2 is the quadratic in t. */
  lemma QuadraticAlongRay(center: Vec3, radius: real, ray: Ray, s: real)
    ensures var q := SphereQuadratic(center, radius, ray);
            SquaredLength(Sub(At(ray, s), center)) - radius * radius == q.a * (s * s) + 2.0 * q.b * s + q.c
  {
    var oc := Sub(ray.origin, center);
    assert Sub(At(ray, s), center) == Add(oc, Scale(ray.direction, s));
    SquaredLengthAlong(oc, ray.direction, s);
  }

  /** |o + s d|^2 as a polynomial in s. */
  lemma SquaredLengthAlong(o: Vec3, d: Vec3, s: real)
    ensures SquaredLength(Add(o, Scale(d, s))) == SquaredLength(d) * (s * s) + 2.0 * Dot(o, d) * s + SquaredLength(o)
  {
    SquareOfSum(o.x, d.x, s);
    SquareOfSum(o.y, d.y, s);
    SquareOfSum(o.z, d.z, s);
  }

  /** a (a s^2 + 2 b s + c) == (a s + b)^2 - (b^2 - a c). */
  lemma CompletedSquare(a: real, b: real, c: real, s: real)
    ensures a * (a * (s * s) + 2.0 * b * s + c) == (a * s + b) * (a * s + b) - (b * b - a * c)
  {
  }

  /** The two roots of a quadratic with a > 0 and a positive discriminant, and nothing else, solve it. */
  lemma QuadraticRoots(a: real, b: real, c: real, root: real, s: real)
    requires a > 0.0 && root > 0.0 && root * root == b * b - a * c
    ensures a * (s * s) + 2.0 * b * s + c == 0.0 <==> s == (-b - root) / a || s == (-b + root) / a
  {
    CompletedSquare(a, b, c, s);
    var w := a * s + b;
    if a * (s * s) + 2.0 * b * s + c == 0.0 {
      assert w * w - root * root == 0.0;
      assert (w - root) * (w + root) == 0.0;
      if w == root {
        assert a * s == -b + root;
      } else {
        assert w + root == 0.0;
        assert a * s == -b - root;
      }
    }
    if s == (-b - root) / a || s == (-b + root) / a {
      assert a * s == -b - root || a * s == -b + root;
      assert w * w == root * root;
    }
  }

  /** The smaller root is smaller. */
  lemma RootsOrdered(a: real, b: real, root: real)
    requires a > 0.0 && root > 0.0
    ensures (-b - root) / a < (-b + root) / a
  {
    Utils.MulLt((-b - root) / a, (-b + root) / a, a);
  }

  /** With a negative discriminant the quadratic has no root. */
  lemma NoRealRoot(a: real, b: real, c: real, s: real)
    requires a > 0.0 && b * b - a * c < 0.0
    ensures a * (s * s) + 2.0 * b * s + c != 0.0
  {
    CompletedSquare(a, b, c, s);
    Square(a * s + b);
  }

  /** A value equal to a quadratic without real roots is never zero. */
  lemma NonZeroWithoutRoots(q: Quadratic, value: real, s: real)
    requires q.a > 0.0 && Discriminant(q) < 0.0
    requires value == q.a * (s * s) + 2.0 * q.b * s + q.c
    ensures value != 0.0
  {
    NoRealRoot(q.a, q.b, q.c, s);
  }

  /** For a positive discriminant the ray is on the sphere exactly at the two roots. */
  lemma OnSphereAtRoots(env: Env, center: Vec3, radius: real, ray: Ray, s: real)
    requires SoundSqrt(env)
    requires Discriminant(SphereQuadratic(center, radius, ray)) > 0.0
    ensures SphereQuadratic(center, radius, ray).a > 0.0
    ensures var q := SphereQuadratic(center, radius, ray);
            OnSphere(center, radius, At(ray, s)) <==> s == NearRoot(env, q) || s == FarRoot(env, q)
  {
    var q := SphereQuadratic(center, radius, ray);
    PositiveDiscriminant(center, radius, ray);
    QuadraticAlongRay(center, radius, ray, s);
    ZeroAtRoots(env, q, SquaredLength(Sub(At(ray, s), center)) - radius * radius, s);
  }

  /** A value equal to the quadratic at s vanishes exactly at the two roots. */
  lemma ZeroAtRoots(env: Env, q: Quadratic, value: real, s: real)
    requires SoundSqrt(env) && q.a > 0.0 && Discriminant(q) > 0.0
    requires value == q.a * (s * s) + 2.0 * q.b * s + q.c
    ensures value == 0.0 <==> s == NearRoot(env, q) || s == FarRoot(env, q)
  {
    var root := env.sqrt(Discriminant(q));
    Square(root);
    QuadraticRoots(q.a, q.b, q.c, root, s);
  }

  /**
   * The root selection finds the nearest intersection: an accepted parameter puts the ray on
   * the sphere, and no parameter strictly inside (tmin, tmax) reaches the sphere earlier.
   */
  lemma SphereRootIsNearest(env: Env, center: Vec3, radius: real, ray: Ray, tmin: real, tmax: real)
    requires SoundSqrt(env)
    ensures var t := SphereRoot(env, center, radius, ray, tmin, tmax);
            t.Some? ==> && OnSphere(center, radius, At(ray, t.value))
                        && forall s :: tmin < s < tmax && OnSphere(center, radius, At(ray, s)) ==> t.value <= s
  {
    var t := SphereRoot(env, center, radius, ray, tmin, tmax);
    if t.Some? {
      var q := SphereQuadratic(center, radius, ray);
      PositiveDiscriminant(center, radius, ray);
      Square(env.sqrt(Discriminant(q)));
      RootsOrdered(q.a, q.b, env.sqrt(Discriminant(q)));
      OnSphereAtRoots(env, center, radius, ray, t.value);
      forall s | tmin < s < tmax && OnSphere(center, radius, At(ray, s))
        ensures t.value <= s
      {
        OnSphereAtRoots(env, center, radius, ray, s);
      }
    }
  }

  /**
   * When no root is accepted the ray does not reach the sphere strictly inside the interval,
   * except at a tangent point (discriminant 0), which the strict test in the source discards.
   */
  lemma SphereMissIsMiss(env: Env, center: Vec3, radius: real, ray: Ray, tmin: real, tmax: real)
    requires SoundSqrt(env) && SquaredLength(ray.direction) > 0.0
    requires Discriminant(SphereQuadratic(center, radius, ray)) != 0.0
    requires SphereRoot(env, center, radius, ray, tmin, tmax).None?
    ensures forall s :: tmin < s < tmax ==> !OnSphere(center, radius, At(ray, s))
  {
    var q := SphereQuadratic(center, radius, ray);
    var rootsOutside := Discriminant(q) > 0.0 ==> !(tmin < NearRoot(env, q) < tmax) && !(tmin < FarRoot(env, q) < tmax);
    assert rootsOutside;
    forall s | tmin < s < tmax
      ensures !OnSphere(center, radius, At(ray, s))
    {
      QuadraticAlongRay(center, radius, ray, s);
      NoRootInside(env, q, SquaredLength(Sub(At(ray, s), center)) - radius * radius, s, tmin, tmax);
    }
  }

  /** A value equal to the quadratic at s, for s inside an interval that holds no root, is not zero. */
  lemma NoRootInside(env: Env, q: Quadratic, value: real, s: real, tmin: real, tmax: real)
    requires SoundSqrt(env) && q.a > 0.0 && Discriminant(q) != 0.0
    requires value == q.a * (s * s) + 2.0 * q.b * s + q.c && tmin < s < tmax
    requires Discriminant(q) > 0.0 ==> !(tmin < NearRoot(env, q) < tmax) && !(tmin < FarRoot(env, q) < tmax)
    ensures value != 0.0
  {
    if Discriminant(q) > 0.0 {
      ZeroAtRoots(env, q, value, s);
    } else {
      NonZeroWithoutRoots(q, value, s);
    }
  }

  /** The facts about `atan2` and `asin` that the (u, v) mapping needs: their ranges. */
  ghost predicate SoundArc(env: Env)
  {
    && (forall y, x :: -Pi <= env.atan2(y, x) <= Pi)
    && (forall y :: -Pi / 2.0 <= env.asin(y) <= Pi / 2.0)
  }

  /**
   * `get_uv` as the source writes it: `1 - (phi + PI) / 2.0 * PI` divides by 2 and then
   * multiplies by pi, so u ranges over [1 - pi^2, 1] rather than [0, 1]; v is in [0, 1].
   */
  function SphereUvAsWritten(env: Env, p: Vec3): (uv: (real, real))
    ensures SoundArc(env) ==> 1.0 - Pi * Pi <= uv.0 <= 1.0 && 0.0 <= uv.1 <= 1.0
  {
    var phi := env.atan2(p.z, p.x);
    var theta := env.asin(p.y);
    (1.0 - (phi + Pi) / 2.0 * Pi, (theta + Pi / 2.0) / Pi)
  }

  /** At the point (1, 0, 0), where atan2 gives 0, the written u is 1 - pi^2 / 2, far below 0. */
  lemma SphereUvAsWrittenLeavesUnitRange(env: Env)
    requires env.atan2(0.0, 1.0) == 0.0
    ensures SphereUvAsWritten(env, Vec3(1.0, 0.0, 0.0)).0 < 0.0
    ensures SphereUv(env, Vec3(1.0, 0.0, 0.0)).0 == 0.5
  {
  }

  /**
   * `get_uv` with the evidently intended `(phi + PI) / (2 * PI)`: the longitude and latitude of
   * a point on the unit sphere, each mapped into [0, 1].
   */
  function SphereUv(env: Env, p: Vec3): (uv: (real, real))
    ensures SoundArc(env) ==> 0.0 <= uv.0 <= 1.0 && 0.0 <= uv.1 <= 1.0
  {
    var phi := env.atan2(p.z, p.x);
    var theta := env.asin(p.y);
    (1.0 - (phi + Pi) / (2.0 * Pi), (theta + Pi / 2.0) / Pi)
  }

  /**
   * `get_hit_record`: the record at parameter t with the normal (point - center) / radius; on
   * the sphere that normal has unit length. The texture coordinates are those of `get_uv` as
   * written, taken at the outward normal: v lies in [0, 1], u only in [1 - pi^2, 1].
   */
  function SphereRecord(env: Env, ray: Ray, t: real, center: Vec3, radius: real, m: Material): (r: HitRecord)
    requires radius != 0.0
    ensures r.point == At(ray, t) && r.time == t && r.material == m
    ensures var outward := DivScalar(Sub(r.point, center), radius);
            r.normal == (if r.frontFace then outward else Neg(outward))
            && (r.frontFace <==> Dot(ray.direction, outward) < 0.0)
    ensures OnSphere(center, radius, r.point) ==> SquaredLength(r.normal) == 1.0
    ensures (r.u, r.v) == SphereUvAsWritten(env, DivScalar(Sub(r.point, center), radius))
    ensures SoundArc(env) ==> 1.0 - Pi * Pi <= r.u <= 1.0 && 0.0 <= r.v <= 1.0
  {
    var point := At(ray, t);
    var outward := DivScalar(Sub(point, center), radius);
    var uv := SphereUvAsWritten(env, outward);
    assert OnSphere(center, radius, point) ==> SquaredLength(outward) == 1.0 by {
      if OnSphere(center, radius, point) { UnitScale(Sub(point, center), radius); }
    }
    assert SquaredLength(Neg(outward)) == SquaredLength(outward);
    Records.NewRecord(ray, point, outward, t, uv.0, uv.1, m)
  }

  /** `Sphere::hit`. */
  function SphereHit(env: Env, center: Vec3, radius: real, m: Material, ray: Ray, tmin: real, tmax: real): (r: Option<HitRecord>)
    ensures r.Some? ==> && tmin < r.value.time < tmax
                        && r.value.material == m
                        && r.value.point == At(ray, r.value.time)
    ensures SoundSqrt(env) && r.Some? ==> && OnSphere(center, radius, r.value.point)
                                          && SquaredLength(r.value.normal) == 1.0
  {
    match SphereRoot(env, center, radius, ray, tmin, tmax)
    case None => None
    case Some(t) =>
      PositiveDiscriminant(center, radius, ray);
      assert SoundSqrt(env) ==> OnSphere(center, radius, At(ray, t)) by {
        if SoundSqrt(env) { SphereRootIsNearest(env, center, radius, ray, tmin, tmax); }
      }
      Some(SphereRecord(env, ray, t, center, radius, m))
  }

  /** `Sphere::bounding_box`: the centre plus and minus the radius, whatever the time interval. */
  function SphereBox(center: Vec3, radius: real): BoundingBox
  {
    var extent := Vec3(radius, radius, radius);
    BoundingBox(Sub(center, extent), Add(center, extent))
  }

  lemma SquareBound(x: real, r: real)
    requires r > 0.0 && x * x <= r * r
    ensures -r <= x <= r
  {
    var y := if x >= 0.0 then x else -x;
    assert y * y == x * x;
    Utils.MulLt(r, y, y + r);
    assert y * (y + r) == y * y + y * r;
    assert r * (y + r) == r * y + r * r;
  }

  /** Every point of a sphere of positive radius lies in its box. */
  lemma SphereInBox(center: Vec3, radius: real, point: Vec3)
    requires radius > 0.0 && OnSphere(center, radius, point)
    ensures ContainsPoint(SphereBox(center, radius), point)
  {
    var d := Sub(point, center);
    Square(d.x);
    Square(d.y);
    Square(d.z);
    SquareBound(d.x, radius);
    SquareBound(d.y, radius);
    SquareBound(d.z, radius);
  }

  /**
   * `find_center`: the centre moves linearly from center0 at time0 to center1 at time1. With
   * time0 == time1 the source divides by zero; the model then keeps center0.
   */
  function FindCenter(center0: Vec3, center1: Vec3, time0: real, time1: real, time: real): (c: Vec3)
    ensures time0 != time1 && time == time0 ==> c == center0
    ensures time0 != time1 && time == time1 ==> c == center1
    ensures center0 == center1 ==> c == center0
  {
    var f := Ratio(time - time0, time1 - time0);
    assert time0 != time1 && time == time1 ==> f == 1.0 by {
      if time0 != time1 && time == time1 {
        RatioSelf(time1 - time0);
      }
    }
    Add(center0, Scale(Sub(center1, center0), f))
  }

  lemma RatioSelf(d: real)
    requires d != 0.0
    ensures Ratio(d, d) == 1.0
  {
    assert d / d == 1.0;
  }

  /**
   * `MovingSphere::hit`: the roots are taken for the centre at the ray's time, but
   * `get_hit_record` evaluates the centre at the hit parameter.
   */
  function MovingSphereHit(env: Env, center0: Vec3, center1: Vec3, time0: real, time1: real, radius: real, m: Material,
                           ray: Ray, tmin: real, tmax: real): (r: Option<HitRecord>)
    ensures r.Some? <==> SphereRoot(env, FindCenter(center0, center1, time0, time1, ray.time), radius, ray, tmin, tmax).Some?
    ensures r.Some? ==> && tmin < r.value.time < tmax
                        && r.value.material == m
                        && r.value.point == At(ray, r.value.time)
    ensures r.Some? ==> radius != 0.0 && var outward := DivScalar(Sub(r.value.point, FindCenter(center0, center1, time0, time1, r.value.time)), radius);
                        r.value.normal == outward || r.value.normal == Neg(outward)
  {
    var c := FindCenter(center0, center1, time0, time1, ray.time);
    match SphereRoot(env, c, radius, ray, tmin, tmax)
    case None => None
    case Some(t) =>
      PositiveDiscriminant(c, radius, ray);
      Some(SphereRecord(env, ray, t, FindCenter(center0, center1, time0, time1, t), radius, m))
  }

  /** A moving sphere that does not move hits exactly like the sphere at its centre. */
  lemma StillMovingSphereIsSphere(env: Env, center: Vec3, time0: real, time1: real, radius: real, m: Material,
                                  ray: Ray, tmin: real, tmax: real)
    ensures MovingSphereHit(env, center, center, time0, time1, radius, m, ray, tmin, tmax)
            == SphereHit(env, center, radius, m, ray, tmin, tmax)
  {
  }

  /**
   * `MovingSphere::bounding_box`: the box surrounding the sphere's boxes at t0 and at t1, so it
   * contains both.
   */
  function MovingSphereBox(center0: Vec3, center1: Vec3, time0: real, time1: real, radius: real, t0: real, t1: real): (b: BoundingBox)
    ensures ContainsBox(b, SphereBox(FindCenter(center0, center1, time0, time1, t0), radius))
    ensures ContainsBox(b, SphereBox(FindCenter(center0, center1, time0, time1, t1), radius))
  {
    SurroundingBox(SphereBox(FindCenter(center0, center1, time0, time1, t0), radius),
                   SphereBox(FindCenter(center0, center1, time0, time1, t1), radius))
  }

  // ---------------------------------------------------------------------------------------
  // Constant medium (src/objects/constant_medium.rs)
  // ---------------------------------------------------------------------------------------

  /** `ConstantMedium::new` stores -1 / density; a zero density is left at 0 here. */
  function NegInvDensity(density: real): (r: real)
    ensures density != 0.0 ==> r * density == -1.0
    ensures density > 0.0 ==> r < 0.0
  {
    var r := Ratio(-1.0, density);
    assert density > 0.0 ==> r < 0.0 by { if density > 0.0 { Utils.MulLt(0.0, r, density); } }
    r
  }

  /**
   * The part of `ConstantMedium::hit` after the boundary was hit at `enter` and again at `exit`:
   * the times are clamped to the query interval, the entry to at least 0, and the sampled
   * distance `-1/density * ln(draw)` decides whether the ray scatters inside.
   */
  function MediumHit(env: Env, phase: Material, negInvDensity: real, ray: Ray, tmin: real, tmax: real,
                     enter: real, exit: real, draw: real): (r: Option<HitRecord>)
    ensures r.Some? ==> Utils.MaxF64(tmin, enter) < Utils.MinF64(tmax, exit)
    // The ray scatters inside exactly when the clamped interval is not empty and the sampled
    // distance fits within the path through it; it then scatters that distance past the entry.
    ensures var entry, exit := Utils.MaxF64(tmin, enter), Utils.MinF64(tmax, exit);
            r.Some? <==> entry < exit
                         && negInvDensity * env.ln(draw) <= (exit - Utils.MaxF64(0.0, entry)) * Length(env, ray.direction)
    ensures r.Some? ==> r.value.time == Utils.MaxF64(0.0, Utils.MaxF64(tmin, enter))
                                        + Ratio(negInvDensity * env.ln(draw), Length(env, ray.direction))
    ensures r.Some? ==> && r.value.point == At(ray, r.value.time)
                        && r.value.u == 0.0 && r.value.v == 0.0 && r.value.material == phase
                        && (r.value.normal == Vec3(1.0, 0.0, 0.0) || r.value.normal == Vec3(-1.0, 0.0, 0.0))
    ensures r.Some? ==> negInvDensity * env.ln(draw) <= (Utils.MinF64(tmax, exit) - Utils.MaxF64(0.0, Utils.MaxF64(tmin, enter))) * Length(env, ray.direction)
    ensures && SoundSqrt(env) && SquaredLength(ray.direction) > 0.0 && negInvDensity * env.ln(draw) >= 0.0 && r.Some?
            ==> Utils.MaxF64(0.0, Utils.MaxF64(tmin, enter)) <= r.value.time <= Utils.MinF64(tmax, exit)
  {
    var time1 := Utils.MaxF64(tmin, enter);
    var time2 := Utils.MinF64(tmax, exit);
    if time1 >= time2 then None
    else
      var time1 := Utils.MaxF64(0.0, time1);
      var rayLength := Length(env, ray.direction);
      var distanceInside := (time2 - time1) * rayLength;
      var hitDistance := negInvDensity * env.ln(draw);
      if hitDistance > distanceInside then None
      else
        var time := time1 + Ratio(hitDistance, rayLength);
        assert SoundSqrt(env) && SquaredLength(ray.direction) > 0.0 && hitDistance >= 0.0 ==> time1 <= time <= time2 by {
          if SoundSqrt(env) && SquaredLength(ray.direction) > 0.0 && hitDistance >= 0.0 {
            MediumStep(time1, time2, rayLength, hitDistance);
          }
        }
        Some(Records.NewRecord(ray, At(ray, time), Vec3(1.0, 0.0, 0.0), time, 0.0, 0.0, phase))
  }

  /** A distance within (exit - entry) * length, divided by the length, stays within [entry, exit]. */
  lemma MediumStep(time1: real, time2: real, rayLength: real, hitDistance: real)
    requires rayLength * rayLength > 0.0 && rayLength >= 0.0
    requires 0.0 <= hitDistance <= (time2 - time1) * rayLength
    ensures time1 <= time1 + Ratio(hitDistance, rayLength) <= time2
  {
    var f := Ratio(hitDistance, rayLength);
    assert rayLength > 0.0;
    assert f * rayLength == hitDistance;
    Utils.MulLt(f, 0.0, rayLength);
    Utils.MulLt(time2 - time1, f, rayLength);
  }
}
