/**
 * The materials of src/material/: how a surface scatters an incoming ray and what light it
 * emits. The `Material` trait's default methods scatter nothing and emit black.
 */
module Materials {
  import opened Wrappers
  import opened Vectors
  import opened Numerics
  import opened Rays
  import Colors
  import Records
  import Textures
  import Utils

  /** The material kinds that implement the `Material` trait. */
  datatype Material =
    | Lambertian(albedo: Textures.Texture)
    | Metal(metalAlbedo: Colors.Color, fuzziness: real)
    | Dielectric(refraction: real)
    | Isotropic(phaseAlbedo: Textures.Texture)
    | Light(emitted: Textures.Texture)

  type HitRecord = Records.HitRecord<Material>

  /**
   * The outcomes of the random generators one `scatter` call uses: a `random_unit` vector,
   * a `random_in_unit_sphere` vector and one `gen_range(0.0, 1.0)` draw.
   */
  datatype ScatterDraws = ScatterDraws(unit: Vec3, inSphere: Vec3, uniform: real)

  /** `x.powi(5)`. */
  function Pow5(x: real): real
  {
    x * x * x * x * x
  }

  /** The reflectance at normal incidence, `((1 - n) / (1 + n))^2`; n = -1 divides by zero. */
  function NormalReflectance(index: real): real
  {
    var q := Ratio(1.0 - index, 1.0 + index);
    q * q
  }

  /** `Dielectric::schlick`: Schlick's approximation of the reflectance at angle cosine `cos`. */
  function Schlick(cos: real, index: real): real
  {
    var r0 := NormalReflectance(index);
    r0 + (1.0 - r0) * Pow5(1.0 - cos)
  }

  /** Head-on, the approximation is the normal reflectance; at grazing incidence it is total. */
  lemma SchlickEndpoints(index: real)
    ensures Schlick(1.0, index) == NormalReflectance(index)
    ensures Schlick(0.0, index) == 1.0
  {
    assert Pow5(1.0 - 1.0) == 0.0;
    assert Pow5(1.0 - 0.0) == 1.0;
  }

  /** For a positive index the normal reflectance is a probability below 1. */
  lemma NormalReflectanceBelowOne(index: real)
    requires index > 0.0
    ensures 0.0 <= NormalReflectance(index) < 1.0
  {
    var q := Ratio(1.0 - index, 1.0 + index);
    assert q * (1.0 + index) == 1.0 - index;
    Utils.MulLt(q, 1.0, 1.0 + index);
    assert 1.0 * (1.0 + index) == 1.0 + index;
    Utils.MulLt(-1.0, q, 1.0 + index);
    assert -1.0 * (1.0 + index) == -(1.0 + index);
    SquareBelowOne(q);
  }

  lemma SquareBelowOne(q: real)
    requires -1.0 < q < 1.0
    ensures 0.0 <= q * q < 1.0
  {
    Utils.MulPos(1.0 - q, 1.0 + q);
    assert (1.0 - q) * (1.0 + q) == 1.0 - q * q;
    if q >= 0.0 {
      Utils.MulNonneg(q, q);
    } else {
      Utils.MulNeg(q, q);
    }
  }

  /** Powers of a number in [0, 1] stay in [0, 1]. */
  lemma Pow5InUnit(x: real)
    requires 0.0 <= x <= 1.0
    ensures 0.0 <= Pow5(x) <= 1.0
  {
    var x2 := x * x;
    Utils.MulNonneg(x, x);
    assert x2 <= 1.0 by { Utils.MulNonneg(1.0 - x, x); assert (1.0 - x) * x == x - x2; }
    var x4 := x2 * x2;
    Utils.MulNonneg(x2, x2);
    assert x4 <= 1.0 by { Utils.MulNonneg(1.0 - x2, x2); assert (1.0 - x2) * x2 == x2 - x4; }
    assert Pow5(x) == x4 * x;
    Utils.MulNonneg(x4, x);
    Utils.MulNonneg(1.0 - x4, x);
    assert (1.0 - x4) * x == x - x4 * x;
  }

  /**
   * For a positive index and an angle cosine in [0, 1], the reflection probability lies
   * between the normal reflectance and 1.
   */
  lemma SchlickIsProbability(cos: real, index: real)
    requires index > 0.0 && 0.0 <= cos <= 1.0
    ensures NormalReflectance(index) <= Schlick(cos, index) <= 1.0
  {
    var r0 := NormalReflectance(index);
    NormalReflectanceBelowOne(index);
    var p := Pow5(1.0 - cos);
    Pow5InUnit(1.0 - cos);
    Utils.MulNonneg(1.0 - r0, p);
    Utils.MulNonneg(1.0 - r0, 1.0 - p);
    assert (1.0 - r0) * (1.0 - p) == (1.0 - r0) - (1.0 - r0) * p;
  }

  /** The relative index of refraction: entering the material divides by its index. */
  function DielectricIndex(refraction: real, frontFace: bool): real
  {
    if frontFace then Ratio(1.0, refraction) else refraction
  }

  /**
   * The reflect-or-refract decision of `Dielectric::scatter`. `sin` is the square root of
   * 1 - cos^2; when that is negative the source compares NaN, which is false.
   */
  predicate Reflects(env: Env, index: real, cos: real, draw: real)
  {
    Schlick(cos, index) > draw || TotallyReflects(env, index, cos)
  }

  /** The angle condition `index * sin > 1` of total internal reflection. */
  predicate TotallyReflects(env: Env, index: real, cos: real)
  {
    1.0 - cos * cos >= 0.0 && index * env.sqrt(1.0 - cos * cos) > 1.0
  }

  /** The cosine of the incidence angle, `min(dot(-unit_direction, normal), 1)`. */
  function IncidenceCos(env: Env, ray: Ray, rec: HitRecord): real
  {
    Utils.MinF64(Dot(Neg(UnitVector(env, ray.direction)), rec.normal), 1.0)
  }

  /** The direction `Dielectric::scatter` continues in. */
  function DielectricDirection(env: Env, refraction: real, ray: Ray, rec: HitRecord, draw: real): Vec3
  {
    var index := DielectricIndex(refraction, rec.frontFace);
    var unitDirection := UnitVector(env, ray.direction);
    var cos := IncidenceCos(env, ray, rec);
    if Reflects(env, index, cos, draw) then Reflect(unitDirection, rec.normal)
    else Refract(env, unitDirection, rec.normal, index)
  }

  /**
   * `scatter` for each kind: the continuation ray starts at the hit point at the ray's time;
   * lights absorb (the trait default, `None`).
   */
  function Scatter(env: Env, m: Material, ray: Ray, rec: HitRecord, d: ScatterDraws): (r: Option<ScatteredRay>)
    ensures r.None? <==> m.Light?
    ensures r.Some? ==> r.value.ray.origin == rec.point && r.value.ray.time == ray.time
    ensures m.Dielectric? ==> r.Some? && r.value.attenuation == Colors.White()
    ensures m.Metal? ==> r.Some? && r.value.attenuation == m.metalAlbedo
    ensures m.Lambertian? ==> r.Some? && r.value.attenuation == Textures.TextureColor(env, m.albedo, rec.u, rec.v, rec.point)
    ensures m.Isotropic? ==> r.Some? && r.value.attenuation == Textures.TextureColor(env, m.phaseAlbedo, rec.u, rec.v, rec.point)
    // Directions: a Lambertian surface offsets the normal by the random unit vector, a metal
    // offsets the mirror direction by the fuzzed sphere draw, an isotropic medium sends the
    // ray along the sphere draw itself, and a dielectric reflects or refracts.
    ensures m.Lambertian? ==> Sub(r.value.ray.direction, rec.normal) == d.unit
    ensures m.Metal? ==> Sub(r.value.ray.direction, Reflect(UnitVector(env, ray.direction), rec.normal))
                         == Scale(d.inSphere, m.fuzziness)
    ensures m.Isotropic? ==> r.value.ray.direction == d.inSphere
    ensures m.Isotropic? && SquaredLength(d.inSphere) < 1.0 ==> SquaredLength(r.value.ray.direction) < 1.0
    ensures m.Dielectric? ==> r.value.ray.direction == DielectricDirection(env, m.refraction, ray, rec, d.uniform)
  {
    match m
    case Lambertian(albedo) =>
      var direction := Add(rec.normal, d.unit);
      Some(ScatteredRay(Ray(rec.point, direction, ray.time),
                        Textures.TextureColor(env, albedo, rec.u, rec.v, rec.point)))
    case Metal(albedo, fuzziness) =>
      var reflected := Reflect(UnitVector(env, ray.direction), rec.normal);
      Some(ScatteredRay(Ray(rec.point, Add(reflected, Scale(d.inSphere, fuzziness)), ray.time), albedo))
    case Dielectric(refraction) =>
      var result := DielectricDirection(env, refraction, ray, rec, d.uniform);
      Some(ScatteredRay(Ray(rec.point, result, ray.time), Colors.White()))
    case Isotropic(albedo) =>
      Some(ScatteredRay(Ray(rec.point, d.inSphere, ray.time),
                        Textures.TextureColor(env, albedo, rec.u, rec.v, rec.point)))
    case Light(_) => None
  }

  /** `emit`: a light gives its texture's colour, every other material the default black. */
  function Emit(env: Env, m: Material, u: real, v: real, point: Vec3): (c: Colors.Color)
    ensures !m.Light? ==> c == Colors.Black()
    ensures m.Light? ==> c == Textures.TextureColor(env, m.emitted, u, v, point)
  {
    match m
    case Light(emitted) => Textures.TextureColor(env, emitted, u, v, point)
    case _ => Colors.Black()
  }

  /**
   * A perfect mirror (fuzziness 0) off a unit normal sends a non-degenerate ray on with unit
   * length, and the reflected ray leaves on the other side of the surface.
   */
  lemma MirrorKeepsUnitLength(env: Env, albedo: Colors.Color, ray: Ray, rec: HitRecord, d: ScatterDraws)
    requires SoundSqrt(env) && SquaredLength(ray.direction) > 0.0 && SquaredLength(rec.normal) == 1.0
    ensures var r := Scatter(env, Metal(albedo, 0.0), ray, rec, d).value.ray.direction;
            SquaredLength(r) == 1.0
            && Dot(r, rec.normal) == -Dot(UnitVector(env, ray.direction), rec.normal)
  {
    var unit := UnitVector(env, ray.direction);
    DotSelfIsSquaredLength(rec.normal);
    ReflectPreservesLength(unit, rec.normal);
    ReflectAlongNormal(unit, rec.normal);
    var reflected := Reflect(unit, rec.normal);
    assert Add(reflected, Scale(d.inSphere, 0.0)) == reflected;
  }

  /**
   * A diffuse bounce off a unit normal with a unit draw never points into the surface, and its
   * direction is at most twice a unit long.
   */
  lemma LambertianScattersOutward(env: Env, albedo: Textures.Texture, ray: Ray, rec: HitRecord, d: ScatterDraws)
    requires SquaredLength(rec.normal) == 1.0 && SquaredLength(d.unit) == 1.0
    ensures var r := Scatter(env, Lambertian(albedo), ray, rec, d).value.ray.direction;
            Dot(r, rec.normal) >= 0.0 && SquaredLength(r) <= 4.0
  {
    var n, u := rec.normal, d.unit;
    var c := Dot(n, u);
    assert SquaredLength(Add(n, u)) == 2.0 + 2.0 * c;
    assert SquaredLength(Sub(n, u)) == 2.0 - 2.0 * c;
    DotSelfIsSquaredLength(Add(n, u));
    DotSelfIsSquaredLength(Sub(n, u));
    assert Dot(Add(n, u), n) == 1.0 + c;
  }

  /**
   * A fuzzy metal leaves within `fuzziness` of the mirror direction: with a draw strictly inside
   * the unit sphere the offset's squared length is at most `fuzziness^2`, and strictly below it
   * unless the metal is a perfect mirror.
   */
  lemma MetalStaysNearMirror(env: Env, albedo: Colors.Color, fuzziness: real, ray: Ray, rec: HitRecord, d: ScatterDraws)
    requires SquaredLength(d.inSphere) < 1.0
    ensures var r := Scatter(env, Metal(albedo, fuzziness), ray, rec, d).value.ray.direction;
            var offset := SquaredLength(Sub(r, Reflect(UnitVector(env, ray.direction), rec.normal)));
            offset <= fuzziness * fuzziness
            && (fuzziness != 0.0 ==> offset < fuzziness * fuzziness)
  {
    var reflected := Reflect(UnitVector(env, ray.direction), rec.normal);
    var r := Scatter(env, Metal(albedo, fuzziness), ray, rec, d).value.ray.direction;
    assert Sub(r, reflected) == Scale(d.inSphere, fuzziness);
    FuzzOffsetBound(d.inSphere, fuzziness);
  }

  /** An offset `f * v` with `v` strictly inside the unit sphere is at most `f` long. */
  lemma FuzzOffsetBound(v: Vec3, f: real)
    requires SquaredLength(v) < 1.0
    ensures SquaredLength(Scale(v, f)) <= f * f
    ensures f != 0.0 ==> SquaredLength(Scale(v, f)) < f * f
  {
    DotSelfIsSquaredLength(v);
    ShrinkBySquare(f, SquaredLength(v));
    calc {
      SquaredLength(Scale(v, f));
    == { ScaledSquaredLength(v, f); }
      SquaredLength(v) * (f * f);
    <=
      f * f;
    }
    if f != 0.0 {
      calc {
        SquaredLength(Scale(v, f));
      == { ScaledSquaredLength(v, f); }
        SquaredLength(v) * (f * f);
      <
        f * f;
      }
    }
  }

  /** Scaling by `f` scales the squared length by `f^2`. */
  lemma ScaledSquaredLength(v: Vec3, f: real)
    ensures SquaredLength(Scale(v, f)) == SquaredLength(v) * (f * f)
  {
    assert (v.x * f) * (v.x * f) == (v.x * v.x) * (f * f);
    assert (v.y * f) * (v.y * f) == (v.y * v.y) * (f * f);
    assert (v.z * f) * (v.z * f) == (v.z * v.z) * (f * f);
  }

  /** A factor in [0, 1) shrinks a square, strictly unless the square is zero. */
  lemma ShrinkBySquare(f: real, len: real)
    requires 0.0 <= len < 1.0
    ensures len * (f * f) <= f * f
    ensures f != 0.0 ==> len * (f * f) < f * f
  {
    var sq := f * f;
    Square(f);
    if sq > 0.0 {
      Utils.MulLt(len, 1.0, sq);
    }
  }

  /**
   * A diffuse bounce does not look at where the ray came from: two rays meeting the same record
   * at the same time scatter identically, whatever their origins and directions.
   */
  lemma LambertianIgnoresIncoming(env: Env, albedo: Textures.Texture, ray1: Ray, ray2: Ray, rec: HitRecord, d: ScatterDraws)
    requires ray1.time == ray2.time
    ensures Scatter(env, Lambertian(albedo), ray1, rec, d) == Scatter(env, Lambertian(albedo), ray2, rec, d)
  {
  }

  /** Total internal reflection: once `index * sin > 1` the dielectric reflects, whatever the draw. */
  lemma TotalInternalReflection(env: Env, refraction: real, ray: Ray, rec: HitRecord, draw: real)
    requires TotallyReflects(env, DielectricIndex(refraction, rec.frontFace), IncidenceCos(env, ray, rec))
    ensures DielectricDirection(env, refraction, ray, rec, draw) == Reflect(UnitVector(env, ray.direction), rec.normal)
  {
  }

  /** At grazing incidence (cosine 0) the reflection probability is 1, so every draw reflects. */
  lemma GrazingDielectricReflects(env: Env, index: real, draw: real)
    requires UnitDraw(draw)
    ensures Reflects(env, index, 0.0, draw)
  {
    SchlickEndpoints(index);
  }
}
