/** Axis-aligned bounding boxes and their slab test, from src/hittable/bounding.rs. */
module Bounding {
  import opened Vectors
  import opened Rays
  import Utils

  /** `BoundingBox { min, max }`; nothing forces min <= max. */
  datatype BoundingBox = BoundingBox(min: Vec3, max: Vec3)

  /** `BoundingBox::default()`: both corners at the origin. */
  function DefaultBox(): BoundingBox { BoundingBox(Zero(), Zero()) }

  /** The closed box holds the point. */
  predicate ContainsPoint(b: BoundingBox, p: Vec3)
  {
    b.min.x <= p.x <= b.max.x && b.min.y <= p.y <= b.max.y && b.min.z <= p.z <= b.max.z
  }

  /** The open box holds the point. */
  predicate StrictlyInside(b: BoundingBox, p: Vec3)
  {
    b.min.x < p.x < b.max.x && b.min.y < p.y < b.max.y && b.min.z < p.z < b.max.z
  }

  /** Every bound of `inner` lies within the corresponding bounds of `outer`. */
  predicate ContainsBox(outer: BoundingBox, inner: BoundingBox)
  {
    && outer.min.x <= inner.min.x && outer.min.y <= inner.min.y && outer.min.z <= inner.min.z
    && inner.max.x <= outer.max.x && inner.max.y <= outer.max.y && inner.max.z <= outer.max.z
  }

  lemma ContainsBoxTransitive(a: BoundingBox, b: BoundingBox, c: BoundingBox)
    requires ContainsBox(a, b) && ContainsBox(b, c)
    ensures ContainsBox(a, c)
  {
  }

  lemma ContainsPointInBox(outer: BoundingBox, inner: BoundingBox, p: Vec3)
    requires ContainsBox(outer, inner) && ContainsPoint(inner, p)
    ensures ContainsPoint(outer, p)
  {
  }

  /**
   * `surrounding_box`: the componentwise minimum of the minima and maximum of the maxima. It
   * contains both boxes and every one of its bounds is a bound of one of them.
   */
  function SurroundingBox(a: BoundingBox, b: BoundingBox): (r: BoundingBox)
    ensures ContainsBox(r, a) && ContainsBox(r, b)
    ensures (r.min.x == a.min.x || r.min.x == b.min.x) && (r.max.x == a.max.x || r.max.x == b.max.x)
    ensures (r.min.y == a.min.y || r.min.y == b.min.y) && (r.max.y == a.max.y || r.max.y == b.max.y)
    ensures (r.min.z == a.min.z || r.min.z == b.min.z) && (r.max.z == a.max.z || r.max.z == b.max.z)
  {
    BoundingBox(
      Vec3(Utils.MinF64(a.min.x, b.min.x), Utils.MinF64(a.min.y, b.min.y), Utils.MinF64(a.min.z, b.min.z)),
      Vec3(Utils.MaxF64(a.max.x, b.max.x), Utils.MaxF64(a.max.y, b.max.y), Utils.MaxF64(a.max.z, b.max.z)))
  }

  /** The surrounding box is the least box containing both. */
  lemma SurroundingBoxLeast(a: BoundingBox, b: BoundingBox, c: BoundingBox)
    requires ContainsBox(c, a) && ContainsBox(c, b)
    ensures ContainsBox(c, SurroundingBox(a, b))
  {
  }

  /** The order of the arguments does not matter. */
  lemma SurroundingBoxSymmetric(a: BoundingBox, b: BoundingBox)
    ensures SurroundingBox(a, b) == SurroundingBox(b, a)
  {
  }

  /**
   * The parameter interval in which a ray is between two planes of one axis. When the direction
   * component is zero the source divides by zero: the interval is then the whole line when the
   * origin lies strictly between the planes and empty when it lies outside (where the source
   * meets a NaN, on a plane, the model also answers Empty).
   */
  datatype Slab = Bounded(lo: real, hi: real) | Unbounded | Empty

  predicate InSlab(s: Slab, t: real)
  {
    match s
    case Bounded(lo, hi) => lo < t < hi
    case Unbounded => true
    case Empty => false
  }

  /** One axis of `BoundingBox::hit`: the two plane parameters, swapped when the inverse direction is negative. */
  function AxisSlab(lo: real, hi: real, o: real, d: real): (s: Slab)
    ensures d != 0.0 <==> s.Bounded?
  {
    if d == 0.0 then
      (if lo < o && o < hi then Unbounded else Empty)
    else
      var inverse := 1.0 / d;
      var t0 := (lo - o) * inverse;
      var t1 := (hi - o) * inverse;
      if inverse < 0.0 then Bounded(t1, t0) else Bounded(t0, t1)
  }

  /** An axis slab holds exactly the parameters at which the ray is strictly between the planes. */
  lemma AxisSlabSound(lo: real, hi: real, o: real, d: real, t: real)
    ensures InSlab(AxisSlab(lo, hi, o, d), t) <==> lo < o + d * t < hi
  {
    if d > 0.0 {
      assert 1.0 / d > 0.0;
      AboveIffPos(lo, o, d, t);
      BelowIffPos(hi, o, d, t);
    } else if d < 0.0 {
      assert 1.0 / d < 0.0;
      AboveIffNeg(lo, o, d, t);
      BelowIffNeg(hi, o, d, t);
    }
  }

  lemma AboveIffPos(lo: real, o: real, d: real, t: real)
    requires d > 0.0
    ensures lo < o + d * t <==> (lo - o) * (1.0 / d) < t
  {
    var inverse := 1.0 / d;
    Utils.MulLt(lo - o, d * t, inverse);
    assert d * inverse == 1.0;
    assert d * t * inverse == t * (d * inverse);
  }

  lemma BelowIffPos(hi: real, o: real, d: real, t: real)
    requires d > 0.0
    ensures o + d * t < hi <==> t < (hi - o) * (1.0 / d)
  {
    var inverse := 1.0 / d;
    Utils.MulLt(d * t, hi - o, inverse);
    assert d * inverse == 1.0;
    assert d * t * inverse == t * (d * inverse);
  }

  lemma AboveIffNeg(lo: real, o: real, d: real, t: real)
    requires d < 0.0
    ensures lo < o + d * t <==> t < (lo - o) * (1.0 / d)
  {
    var inverse := 1.0 / d;
    assert -inverse > 0.0;
    Utils.MulLt((-d) * t, o - lo, -inverse);
    assert d * inverse == 1.0;
    assert (-d) * t * (-inverse) == t * (d * inverse);
    assert (o - lo) * (-inverse) == (lo - o) * inverse;
  }

  lemma BelowIffNeg(hi: real, o: real, d: real, t: real)
    requires d < 0.0
    ensures o + d * t < hi <==> (hi - o) * (1.0 / d) < t
  {
    var inverse := 1.0 / d;
    assert -inverse > 0.0;
    Utils.MulLt(o - hi, (-d) * t, -inverse);
    assert d * inverse == 1.0;
    assert (-d) * t * (-inverse) == t * (d * inverse);
    assert (o - hi) * (-inverse) == (hi - o) * inverse;
  }

  /** The slab of axis `axis` (0, 1, 2 for x, y, z) of the box for the ray. */
  function SlabOf(b: BoundingBox, ray: Ray, axis: nat): Slab
    requires axis < 3
  {
    AxisSlab(Coord(b.min, axis), Coord(b.max, axis), Coord(ray.origin, axis), Coord(ray.direction, axis))
  }

  /** One narrowing step: `tmin = max_f64(tmin, t0)`, `tmax = min_f64(tmax, t1)`. */
  function Narrow(interval: (real, real), s: Slab): (r: (real, real))
    ensures r.0 >= interval.0 && r.1 <= interval.1
    ensures s.Bounded? ==> r.0 >= s.lo && r.1 <= s.hi
  {
    match s
    case Bounded(lo, hi) => (Utils.MaxF64(interval.0, lo), Utils.MinF64(interval.1, hi))
    case _ => interval
  }

  /** The interval after the first k axes have narrowed it. */
  function NarrowUpTo(b: BoundingBox, ray: Ray, tmin: real, tmax: real, k: nat): (real, real)
    requires k <= 3
  {
    if k == 0 then (tmin, tmax) else Narrow(NarrowUpTo(b, ray, tmin, tmax, k - 1), SlabOf(b, ray, k - 1))
  }

  /**
   * The outcome of `BoundingBox::hit` in closed form: no axis is empty and the interval left
   * after all three axes is non-empty.
   */
  predicate BoxHit(b: BoundingBox, ray: Ray, tmin: real, tmax: real)
  {
    && (forall k :: 0 <= k < 3 ==> !SlabOf(b, ray, k).Empty?)
    && NarrowUpTo(b, ray, tmin, tmax, 3).0 < NarrowUpTo(b, ray, tmin, tmax, 3).1
  }

  /** Narrowing only ever shrinks the interval. */
  lemma {:induction false} NarrowShrinks(b: BoundingBox, ray: Ray, tmin: real, tmax: real, j: nat, k: nat)
    requires j <= k <= 3
    ensures NarrowUpTo(b, ray, tmin, tmax, k).0 >= NarrowUpTo(b, ray, tmin, tmax, j).0
    ensures NarrowUpTo(b, ray, tmin, tmax, k).1 <= NarrowUpTo(b, ray, tmin, tmax, j).1
  {
    if j < k {
      NarrowShrinks(b, ray, tmin, tmax, j, k - 1);
    }
  }

  /**
   * `BoundingBox::hit`: for each axis, narrow [tmin, tmax] to the slab and give up as soon as it
   * is empty. The answer is the closed form `BoxHit`.
   */
  method SlabTest(b: BoundingBox, ray: Ray, tmin0: real, tmax0: real) returns (hit: bool)
    ensures hit == BoxHit(b, ray, tmin0, tmax0)
  {
    var tmin, tmax := tmin0, tmax0;
    for idx := 0 to 3
      invariant (tmin, tmax) == NarrowUpTo(b, ray, tmin0, tmax0, idx)
      invariant forall k :: 0 <= k < idx ==> !SlabOf(b, ray, k).Empty?
      invariant idx > 0 ==> tmin < tmax
    {
      var s := AxisSlab(Coord(b.min, idx), Coord(b.max, idx), Coord(ray.origin, idx), Coord(ray.direction, idx));
      match s {
        case Empty =>
          assert SlabOf(b, ray, idx).Empty?;
          return false;
        case Unbounded =>
        case Bounded(t0, t1) =>
          tmin := Utils.MaxF64(tmin, t0);
          tmax := Utils.MinF64(tmax, t1);
      }
      if tmax <= tmin {
        NarrowShrinks(b, ray, tmin0, tmax0, idx + 1, 3);
        return false;
      }
    }
    return true;
  }

  lemma AtCoord(ray: Ray, t: real, k: nat)
    requires k < 3
    ensures Coord(At(ray, t), k) == Coord(ray.origin, k) + Coord(ray.direction, k) * t
  {
  }

  /** Box at axis k, with the ray parameter. */
  lemma SlabOfSound(b: BoundingBox, ray: Ray, t: real, k: nat)
    requires k < 3
    ensures InSlab(SlabOf(b, ray, k), t) <==> Coord(b.min, k) < Coord(At(ray, t), k) < Coord(b.max, k)
  {
    AtCoord(ray, t, k);
    AxisSlabSound(Coord(b.min, k), Coord(b.max, k), Coord(ray.origin, k), Coord(ray.direction, k), t);
  }

  lemma StrictlyInsideByAxes(b: BoundingBox, p: Vec3)
    ensures StrictlyInside(b, p) <==> forall k :: 0 <= k < 3 ==> Coord(b.min, k) < Coord(p, k) < Coord(b.max, k)
  {
    if forall k :: 0 <= k < 3 ==> Coord(b.min, k) < Coord(p, k) < Coord(b.max, k) {
      assert Coord(b.min, 0) < Coord(p, 0) < Coord(b.max, 0);
      assert Coord(b.min, 1) < Coord(p, 1) < Coord(b.max, 1);
      assert Coord(b.min, 2) < Coord(p, 2) < Coord(b.max, 2);
    }
  }

  /** A parameter inside the first k slabs and inside (tmin, tmax) is inside the narrowed interval. */
  lemma {:induction false} InsideNarrowed(b: BoundingBox, ray: Ray, tmin: real, tmax: real, t: real, k: nat)
    requires k <= 3 && tmin < t < tmax
    requires forall j :: 0 <= j < k ==> InSlab(SlabOf(b, ray, j), t)
    ensures NarrowUpTo(b, ray, tmin, tmax, k).0 < t < NarrowUpTo(b, ray, tmin, tmax, k).1
  {
    if k > 0 {
      InsideNarrowed(b, ray, tmin, tmax, t, k - 1);
    }
  }

  /**
   * The slab test is exact for open boxes: it succeeds if and only if some parameter strictly
   * between tmin and tmax puts the ray strictly inside the box.
   */
  lemma BoxHitIffInside(b: BoundingBox, ray: Ray, tmin: real, tmax: real)
    ensures BoxHit(b, ray, tmin, tmax) <==> exists t :: tmin < t < tmax && StrictlyInside(b, At(ray, t))
  {
    var lo := NarrowUpTo(b, ray, tmin, tmax, 3).0;
    var hi := NarrowUpTo(b, ray, tmin, tmax, 3).1;
    if BoxHit(b, ray, tmin, tmax) {
      var t := (lo + hi) / 2.0;
      NarrowShrinks(b, ray, tmin, tmax, 0, 3);
      forall k | 0 <= k < 3
        ensures Coord(b.min, k) < Coord(At(ray, t), k) < Coord(b.max, k)
      {
        NarrowShrinks(b, ray, tmin, tmax, k + 1, 3);
        assert InSlab(SlabOf(b, ray, k), t);
        SlabOfSound(b, ray, t, k);
      }
      StrictlyInsideByAxes(b, At(ray, t));
      assert tmin < t < tmax && StrictlyInside(b, At(ray, t));
    }
    if t :| tmin < t < tmax && StrictlyInside(b, At(ray, t)) {
      StrictlyInsideByAxes(b, At(ray, t));
      forall k | 0 <= k < 3
        ensures InSlab(SlabOf(b, ray, k), t)
      {
        SlabOfSound(b, ray, t, k);
      }
      InsideNarrowed(b, ray, tmin, tmax, t, 3);
    }
  }
}
