/**
 * The floating-point functions the ray tracer takes from the standard library
 * (`f64::sqrt`, `f64::sin`, `f64::cos`, `f64::ln`, `f64::atan2`, `f64::asin`) are not modelled; they are handed to the
 * model in an environment record, constrained only by the facts a property needs.
 */
module Numerics {
  import opened Vectors
  import Utils

  /** The environment of uninterpreted numeric functions. */
  datatype Env = Env(
    sqrt: real -> real,
    sin: real -> real,
    cos: real -> real,
    ln: real -> real,
    atan2: (real, real) -> real,
    asin: real -> real)

  /**
   * The facts of the real square root the model relies on: on non-negative arguments it is a
   * non-negative square root, it is monotone, and it maps 0 to 0 and 1 to 1.
   */
  ghost predicate SoundSqrt(env: Env)
  {
    && (forall x :: 0.0 <= x ==> 0.0 <= env.sqrt(x) && env.sqrt(x) * env.sqrt(x) == x)
    && (forall x, y {:trigger env.sqrt(x), env.sqrt(y)} :: 0.0 <= x <= y ==> env.sqrt(x) <= env.sqrt(y))
    && env.sqrt(0.0) == 0.0
    && env.sqrt(1.0) == 1.0
  }

  /** `length`: the square root of the squared length. */
  function Length(env: Env, v: Vec3): (r: real)
    ensures SoundSqrt(env) ==> r >= 0.0 && r * r == SquaredLength(v)
  {
    DotSelfIsSquaredLength(v);
    env.sqrt(SquaredLength(v))
  }

  /**
   * `unit_vector`: the vector divided by its length. The zero vector has no direction (the
   * source divides by zero and yields NaN components); the model returns it unchanged.
   */
  function UnitVector(env: Env, v: Vec3): (r: Vec3)
    ensures Length(env, v) == 0.0 ==> r == v
    ensures SoundSqrt(env) && SquaredLength(v) > 0.0 ==> SquaredLength(r) == 1.0
  {
    var len := Length(env, v);
    if len == 0.0 then v
    else
      var r := DivScalar(v, len);
      assert SoundSqrt(env) && SquaredLength(v) > 0.0 ==> SquaredLength(r) == 1.0 by {
        if SoundSqrt(env) && SquaredLength(v) > 0.0 {
          UnitScale(v, len);
        }
      }
      r
  }

  /** Dividing by a number whose square is the squared length gives squared length 1. */
  lemma UnitScale(v: Vec3, len: real)
    requires len != 0.0 && len * len == SquaredLength(v)
    ensures SquaredLength(DivScalar(v, len)) == 1.0
  {
    UnitScaleComponents(v.x, v.y, v.z, len);
  }

  lemma UnitScaleComponents(a: real, b: real, c: real, len: real)
    requires len != 0.0 && len * len == a * a + b * b + c * c
    ensures (a / len) * (a / len) + (b / len) * (b / len) + (c / len) * (c / len) == 1.0
  {
    var k := 1.0 / len;
    assert len * k == 1.0;
    assert a / len == a * k && b / len == b * k && c / len == c * k;
    calc {
      (a * k) * (a * k) + (b * k) * (b * k) + (c * k) * (c * k);
      (a * a + b * b + c * c) * (k * k);
      (len * len) * (k * k);
      (len * k) * (len * k);
      1.0;
    }
  }

  /** `std::f64::consts::PI` as a decimal. */
  const Pi: real := 3.141592653589793

  /** The Pythagorean identity of sine and cosine. */
  ghost predicate SoundTrig(env: Env)
  {
    forall a :: env.sin(a) * env.sin(a) + env.cos(a) * env.cos(a) == 1.0
  }

  /**
   * `random_unit`: an angle drawn from [0, 2 pi) and a height z from [-1, 1) give the point
   * (r cos a, r sin a, z) with r = sqrt(1 - z^2).
   */
  function RandomUnit(env: Env, angleDraw: real, heightDraw: real): (r: Vec3)
    requires UnitDraw(angleDraw) && UnitDraw(heightDraw)
    ensures -1.0 <= r.z < 1.0
    ensures SoundSqrt(env) && SoundTrig(env) ==> SquaredLength(r) == 1.0
  {
    var a := Uniform(0.0, 2.0 * Pi, angleDraw);
    var z := Uniform(-1.0, 1.0, heightDraw);
    UniformInRange(-1.0, 1.0, heightDraw);
    var radius := env.sqrt(1.0 - z * z);
    var r := Vec3(radius * env.cos(a), radius * env.sin(a), z);
    assert SoundSqrt(env) && SoundTrig(env) ==> SquaredLength(r) == 1.0 by {
      if SoundSqrt(env) && SoundTrig(env) {
        SquareAtMostOne(z);
        OnUnitSphere(radius, env.cos(a), env.sin(a), z);
      }
    }
    r
  }

  lemma SquareAtMostOne(z: real)
    requires -1.0 <= z <= 1.0
    ensures 0.0 <= 1.0 - z * z
  {
    Utils.MulNonneg(1.0 - z, 1.0 + z);
    assert (1.0 - z) * (1.0 + z) == 1.0 - z * z;
  }

  lemma OnUnitSphere(r: real, c: real, s: real, z: real)
    requires r * r == 1.0 - z * z && s * s + c * c == 1.0
    ensures (r * c) * (r * c) + (r * s) * (r * s) + z * z == 1.0
  {
    assert (r * c) * (r * c) == (r * r) * (c * c);
    assert (r * s) * (r * s) == (r * r) * (s * s);
    assert (r * r) * (c * c) + (r * r) * (s * s) == (r * r) * (s * s + c * c);
  }

  /** `refract`: the parallel part of the refracted ray plus the perpendicular part along -normal. */
  function Refract(env: Env, v: Vec3, normal: Vec3, coeff: real): Vec3
  {
    var cos := Utils.MinF64(1.0, Dot(Neg(v), normal));
    var parallel := Scale(Add(v, Scale(normal, cos)), coeff);
    var perpendicular := Scale(Neg(normal), env.sqrt(1.0 - SquaredLength(parallel)));
    Add(parallel, perpendicular)
  }

  /**
   * A quotient whose divisor may be zero. The source's u, v coordinates and the moving-sphere
   * centre divide by input-dependent quantities; where the divisor is zero the model yields 0.
   */
  function Ratio(a: real, b: real): (r: real)
    ensures b != 0.0 ==> r * b == a
  {
    if b == 0.0 then 0.0 else a / b
  }
}
