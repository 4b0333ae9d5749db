/**
 * The `Hittable` trait of src/hittable/hittable.rs and its implementors, as one closed
 * datatype: the primitives of src/objects/, the decorators `FlipFace`, `Translate` and
 * `RotateY`, `HittableList` and `BvhNode`. `Hit` and `BoxOf` are the trait's `hit` and
 * `bounding_box`.
 */
module Hittables {
  import opened Wrappers
  import opened Vectors
  import opened Numerics
  import opened Rays
  import opened Bounding
  import opened Materials
  import opened Objects
  import Records
  import Textures
  import Utils

  /** Every object the tracer can intersect. */
  datatype Hittable =
    | Sphere(center: Vec3, radius: real, material: Material)
    | MovingSphere(center0: Vec3, center1: Vec3, time0: real, time1: real, radius: real, material: Material)
    | XYRect(x0: real, x1: real, y0: real, y1: real, z: real, material: Material)
    | XZRect(x0: real, x1: real, z0: real, z1: real, y: real, material: Material)
    | YZRect(y0: real, y1: real, z0: real, z1: real, x: real, material: Material)
    | Cube(bottomLeft: Vec3, topRight: Vec3, sides: seq<Hittable>)
    | ConstantMedium(boundary: Hittable, phase: Material, negInvDensity: real)
    | FlipFace(child: Hittable)
    | Translate(child: Hittable, offset: Vec3)
    | RotateY(sin: real, cos: real, child: Hittable, rotatedBox: BoundingBox)
    | List(objects: seq<Hittable>)
    | Bvh(left: Hittable, right: Hittable, nodeBox: BoundingBox)

  /**
   * The uniform draws of one query, indexed by the path of the probe that takes them. Every call
   * of `ConstantMedium::hit` takes a fresh draw from the thread's generator; here each probe of
   * an object gets its own branch of the draws (`Branch`), and a medium takes the draw at the
   * root of its branch, so no two medium probes of one query share a draw.
   */
  type Draws = seq<nat> -> real

  /** The draws of the i-th probe below the current one. */
  function Branch(draws: Draws, i: nat): Draws
  {
    path => draws([i] + path)
  }

  /** `hit`: the record of the nearest hit between tmin and tmax, if any. */
  function Hit(env: Env, h: Hittable, ray: Ray, tmin: real, tmax: real, draws: Draws): Option<HitRecord>
    decreases h, 0
  {
    match h
    case Sphere(center, radius, m) => SphereHit(env, center, radius, m, ray, tmin, tmax)
    case MovingSphere(c0, c1, t0, t1, radius, m) => MovingSphereHit(env, c0, c1, t0, t1, radius, m, ray, tmin, tmax)
    case XYRect(x0, x1, y0, y1, z, m) => RectHit(XY, x0, x1, y0, y1, z, m, ray, tmin, tmax)
    case XZRect(x0, x1, z0, z1, y, m) => RectHit(XZ, x0, x1, z0, z1, y, m, ray, tmin, tmax)
    case YZRect(y0, y1, z0, z1, x, m) => RectHit(YZ, y0, y1, z0, z1, x, m, ray, tmin, tmax)
    case Cube(_, _, sides) => ListHit(env, sides, |sides|, ray, tmin, tmax, draws)
    case ConstantMedium(boundary, phase, negInvDensity) => MediumThrough(env, boundary, phase, negInvDensity, ray, tmin, tmax, draws)
    case FlipFace(child) => Flipped(Hit(env, child, ray, tmin, tmax, draws))
    case Translate(child, offset) =>
      Translated(ray, offset, Hit(env, child, TranslatedRay(ray, offset), tmin, tmax, draws))
    case RotateY(sin, cos, child, _) =>
      RotatedBack(sin, cos, RotatedRay(sin, cos, ray), Hit(env, child, RotatedRay(sin, cos, ray), tmin, tmax, draws))
    case List(objects) => ListHit(env, objects, |objects|, ray, tmin, tmax, draws)
    case Bvh(left, right, nodeBox) =>
      if !BoxHit(nodeBox, ray, tmin, tmax) then None
      else Nearer(Hit(env, left, ray, tmin, tmax, Branch(draws, 0)), Hit(env, right, ray, tmin, tmax, Branch(draws, 1)))
  }

  /**
   * `ConstantMedium::hit`: the boundary is hit anywhere along the ray, then again just after
   * that; the medium scatters between the two crossings. Both boundary probes and the medium's
   * own draw are separate calls, so each has its own draws.
   */
  function MediumThrough(env: Env, boundary: Hittable, phase: Material, negInvDensity: real,
                         ray: Ray, tmin: real, tmax: real, draws: Draws): Option<HitRecord>
    decreases boundary, 1
  {
    var first := Hit(env, boundary, ray, Utils.F64Min, Utils.F64Max, Branch(draws, 0));
    var second := if first.Some? then Hit(env, boundary, ray, first.value.time + 0.0001, Utils.F64Max, Branch(draws, 1)) else None;
    MediumBetween(env, phase, negInvDensity, ray, tmin, tmax, first, second, draws([]))
  }

  /**
   * `ConstantMedium::hit` once the boundary has answered both queries: a medium scatters only
   * where its boundary is crossed twice, in and then out again, and the clamped interval
   * between the crossings is not empty; what scatters there is the phase function.
   */
  function MediumBetween(env: Env, phase: Material, negInvDensity: real, ray: Ray, tmin: real, tmax: real,
                         first: Option<HitRecord>, second: Option<HitRecord>, draw: real): (r: Option<HitRecord>)
    ensures r.Some? ==> && first.Some? && second.Some?
                        && Utils.MaxF64(tmin, first.value.time) < Utils.MinF64(tmax, second.value.time)
                        && r.value.material == phase
    ensures first.Some? && second.Some? ==>
              r == MediumHit(env, phase, negInvDensity, ray, tmin, tmax, first.value.time, second.value.time, draw)
  {
    match (first, second)
    case (Some(enter), Some(exit)) => MediumHit(env, phase, negInvDensity, ray, tmin, tmax, enter.time, exit.time, draw)
    case _ => None
  }

  /** The upper end of the interval after a list has recorded `result`. */
  function ClosestSoFar(result: Option<HitRecord>, tmax: real): real
  {
    if result.Some? then result.value.time else tmax
  }

  /**
   * `HittableList::hit` over the first k objects: each object is probed up to the time of the
   * last recorded hit, and a hit replaces the record.
   */
  function ListHit(env: Env, objects: seq<Hittable>, k: nat, ray: Ray, tmin: real, tmax: real, draws: Draws): Option<HitRecord>
    requires k <= |objects|
    decreases objects, k
  {
    if k == 0 then None
    else
      var previous := ListHit(env, objects, k - 1, ray, tmin, tmax, draws);
      match Hit(env, objects[k - 1], ray, tmin, ClosestSoFar(previous, tmax), Branch(draws, k - 1))
      case Some(record) => Some(record)
      case None => previous
  }

  /** `FlipFace::hit`: the inner record with only `front_face` negated. */
  function Flipped(inner: Option<HitRecord>): (r: Option<HitRecord>)
    ensures r.None? <==> inner.None?
    ensures r.Some? ==> && r.value.frontFace == !inner.value.frontFace
                        && r.value.(frontFace := inner.value.frontFace) == inner.value
  {
    match inner
    case None => None
    case Some(record) => Some(record.(frontFace := !record.frontFace))
  }

  /** The ray `Translate::hit` probes with: the origin moved back by the offset. */
  function TranslatedRay(ray: Ray, offset: Vec3): Ray
  {
    ray.(origin := Sub(ray.origin, offset))
  }

  /**
   * `Translate::hit`: the record is rebuilt for the translated ray with the point moved by the
   * offset. Its front face is recomputed from the inner normal, which already faces against the
   * ray, so the inner front face is not carried over.
   */
  function Translated(ray: Ray, offset: Vec3, inner: Option<HitRecord>): (r: Option<HitRecord>)
    ensures r.None? <==> inner.None?
    ensures r.Some? ==> && r.value.point == Add(inner.value.point, offset)
                        && r.value.time == inner.value.time && r.value.u == inner.value.u
                        && r.value.v == inner.value.v && r.value.material == inner.value.material
                        && (r.value.frontFace <==> Dot(ray.direction, inner.value.normal) < 0.0)
  {
    match inner
    case None => None
    case Some(record) =>
      Some(Records.NewRecord(TranslatedRay(ray, offset), Add(record.point, offset), record.normal,
                             record.time, record.u, record.v, record.material))
  }

  /**
   * The ray `RotateY::hit` probes with, in the source's update order: the new z of the origin
   * and of the direction is computed from the already rotated x.
   */
  function RotatedRay(sin: real, cos: real, ray: Ray): (r: Ray)
    ensures r.origin.y == ray.origin.y && r.direction.y == ray.direction.y && r.time == ray.time
  {
    var ox := cos * ray.origin.x - sin * ray.origin.z;
    var oz := sin * ox + cos * ray.origin.z;
    var dx := cos * ray.direction.x - sin * ray.direction.z;
    var dz := sin * dx + cos * ray.direction.z;
    Ray(Vec3(ox, ray.origin.y, oz), Vec3(dx, ray.direction.y, dz), ray.time)
  }

  /**
   * The record `RotateY::hit` returns, in the source's update order (the new z of the point and
   * of the normal uses the already rotated x), built for the rotated ray.
   */
  function RotatedBack(sin: real, cos: real, rotated: Ray, inner: Option<HitRecord>): (r: Option<HitRecord>)
    ensures r.None? <==> inner.None?
    ensures r.Some? ==> && r.value.point.y == inner.value.point.y
                        && r.value.time == inner.value.time && r.value.u == inner.value.u
                        && r.value.v == inner.value.v && r.value.material == inner.value.material
  {
    match inner
    case None => None
    case Some(record) =>
      var px := cos * record.point.x + sin * record.point.z;
      var pz := cos * record.point.z - sin * px;
      var nx := cos * record.normal.x + sin * record.normal.z;
      var nz := cos * record.normal.z - sin * nx;
      Some(Records.NewRecord(rotated, Vec3(px, record.point.y, pz), Vec3(nx, record.normal.y, nz),
                             record.time, record.u, record.v, record.material))
  }

  /**
   * The choice of `BvhNode::hit` between its children: a missing hit loses, and of two hits the
   * left one wins only if it is strictly earlier.
   */
  function Nearer(left: Option<HitRecord>, right: Option<HitRecord>): (r: Option<HitRecord>)
    ensures r.None? <==> left.None? && right.None?
    ensures r == left || r == right
    ensures left.Some? && right.Some? ==> r.value.time <= left.value.time && r.value.time <= right.value.time
    ensures left.Some? && right.Some? && left.value.time == right.value.time ==> r == right
  {
    if left.None? && right.None? then None
    else if left.None? then right
    else if right.None? then left
    else Some(if left.value.time < right.value.time then left.value else right.value)
  }

  /** `bounding_box(t0, t1)`. */
  function BoxOf(h: Hittable, t0: real, t1: real): Option<BoundingBox>
    decreases h, 0
  {
    match h
    case Sphere(center, radius, _) => Some(SphereBox(center, radius))
    case MovingSphere(c0, c1, time0, time1, radius, _) => Some(MovingSphereBox(c0, c1, time0, time1, radius, t0, t1))
    case XYRect(x0, x1, y0, y1, z, _) => Some(RectBox(XY, x0, x1, y0, y1, z))
    case XZRect(x0, x1, z0, z1, y, _) => Some(RectBox(XZ, x0, x1, z0, z1, y))
    case YZRect(y0, y1, z0, z1, x, _) => Some(RectBox(YZ, y0, y1, z0, z1, x))
    case Cube(bottomLeft, topRight, _) => Some(BoundingBox(bottomLeft, topRight))
    case ConstantMedium(boundary, _, _) => BoxOf(boundary, t0, t1)
    case FlipFace(child) => BoxOf(child, t0, t1)
    case Translate(child, offset) => TranslatedBox(BoxOf(child, t0, t1), offset)
    case RotateY(_, _, _, rotatedBox) => Some(rotatedBox)
    case List(objects) => if |objects| == 0 then None else ListBox(objects, |objects|, t0, t1)
    case Bvh(_, _, nodeBox) => Some(nodeBox)
  }

  /** `Translate::bounding_box`: both corners moved by the offset. */
  function TranslatedBox(inner: Option<BoundingBox>, offset: Vec3): (r: Option<BoundingBox>)
    ensures r.None? <==> inner.None?
    ensures r.Some? ==> forall p :: ContainsPoint(inner.value, p) <==> ContainsPoint(r.value, Add(p, offset))
  {
    match inner
    case None => None
    case Some(b) => Some(BoundingBox(Add(b.min, offset), Add(b.max, offset)))
  }

  /**
   * `HittableList::bounding_box` over the first k objects. `first` starts false in the source
   * and is never set, so every box is merged with the default box at the origin.
   */
  function ListBox(objects: seq<Hittable>, k: nat, t0: real, t1: real): Option<BoundingBox>
    requires k <= |objects|
    decreases objects, k
  {
    if k == 0 then Some(DefaultBox())
    else
      match ListBox(objects, k - 1, t0, t1)
      case None => None
      case Some(result) =>
        match BoxOf(objects[k - 1], t0, t1)
        case None => None
        case Some(objBox) => Some(SurroundingBox(objBox, result))
  }

  // ---------------------------------------------------------------------------------------
  // Properties of the list
  // ---------------------------------------------------------------------------------------

  /** The list reports no hit if and only if no object reports a hit over the whole interval. */
  lemma {:induction false} ListHitNoneIff(env: Env, objects: seq<Hittable>, k: nat, ray: Ray, tmin: real, tmax: real, draws: Draws)
    requires k <= |objects|
    ensures ListHit(env, objects, k, ray, tmin, tmax, draws).None?
            <==> forall i :: 0 <= i < k ==> Hit(env, objects[i], ray, tmin, tmax, Branch(draws, i)).None?
  {
    if k > 0 {
      ListHitNoneIff(env, objects, k - 1, ray, tmin, tmax, draws);
    }
  }

  /**
   * A list hit is the record of the last object that reported one, probed up to the time of the
   * hit before it, and no later object reports a hit before that record's time.
   */
  lemma ListHitIsLastHit(env: Env, objects: seq<Hittable>, k: nat, ray: Ray, tmin: real, tmax: real, draws: Draws)
    requires k <= |objects|
    requires ListHit(env, objects, k, ray, tmin, tmax, draws).Some?
    ensures var r := ListHit(env, objects, k, ray, tmin, tmax, draws);
            exists j :: && 0 <= j < k
                        && Hit(env, objects[j], ray, tmin, ClosestSoFar(ListHit(env, objects, j, ray, tmin, tmax, draws), tmax), Branch(draws, j)) == r
                        && forall i :: j < i < k ==> Hit(env, objects[i], ray, tmin, r.value.time, Branch(draws, i)).None?
  {
    var j := LastHitIndex(env, objects, k, ray, tmin, tmax, draws);
  }

  /** The index of the object whose record the list reports. */
  lemma {:induction false} LastHitIndex(env: Env, objects: seq<Hittable>, k: nat, ray: Ray, tmin: real, tmax: real, draws: Draws)
      returns (j: nat)
    requires k <= |objects|
    requires ListHit(env, objects, k, ray, tmin, tmax, draws).Some?
    ensures j < k
    ensures Hit(env, objects[j], ray, tmin, ClosestSoFar(ListHit(env, objects, j, ray, tmin, tmax, draws), tmax), Branch(draws, j))
            == ListHit(env, objects, k, ray, tmin, tmax, draws)
    ensures forall i :: j < i < k ==> Hit(env, objects[i], ray, tmin, ListHit(env, objects, k, ray, tmin, tmax, draws).value.time, Branch(draws, i)).None?
  {
    var previous := ListHit(env, objects, k - 1, ray, tmin, tmax, draws);
    if Hit(env, objects[k - 1], ray, tmin, ClosestSoFar(previous, tmax), Branch(draws, k - 1)).Some? {
      j := k - 1;
    } else {
      j := LastHitIndex(env, objects, k - 1, ray, tmin, tmax, draws);
      assert ListHit(env, objects, k, ray, tmin, tmax, draws) == previous;
    }
  }

  /** Once a prefix of the list has no box, no longer prefix has one. */
  lemma {:induction false} ListBoxStaysNone(objects: seq<Hittable>, j: nat, k: nat, t0: real, t1: real)
    requires j <= k <= |objects| && ListBox(objects, j, t0, t1).None?
    ensures ListBox(objects, k, t0, t1).None?
    decreases k - j
  {
    if j < k {
      ListBoxStaysNone(objects, j + 1, k, t0, t1);
    }
  }

  /** A list's box is missing if and only if some object has no box (or the list is empty). */
  lemma {:induction false} ListBoxNoneIff(objects: seq<Hittable>, k: nat, t0: real, t1: real)
    requires k <= |objects|
    ensures ListBox(objects, k, t0, t1).None? <==> exists i :: 0 <= i < k && BoxOf(objects[i], t0, t1).None?
  {
    if k > 0 {
      ListBoxNoneIff(objects, k - 1, t0, t1);
    }
  }

  /** The list's box contains every object's box, and because of the default box also the origin. */
  lemma {:induction false} ListBoxContains(objects: seq<Hittable>, k: nat, t0: real, t1: real)
    requires k <= |objects| && ListBox(objects, k, t0, t1).Some?
    ensures ContainsPoint(ListBox(objects, k, t0, t1).value, Zero())
    ensures forall i :: 0 <= i < k ==> BoxOf(objects[i], t0, t1).Some?
                                       && ContainsBox(ListBox(objects, k, t0, t1).value, BoxOf(objects[i], t0, t1).value)
  {
    if k > 0 {
      var b := ListBox(objects, k, t0, t1).value;
      var previous := ListBox(objects, k - 1, t0, t1).value;
      ListBoxContains(objects, k - 1, t0, t1);
      assert ContainsBox(b, previous);
      forall i | 0 <= i < k - 1
        ensures ContainsBox(b, BoxOf(objects[i], t0, t1).value)
      {
        ContainsBoxTransitive(b, previous, BoxOf(objects[i], t0, t1).value);
      }
    }
  }

  /** `HittableList::bounding_box` as the trait sees it: None for an empty list. */
  lemma EmptyListHasNoBox(t0: real, t1: real)
    ensures BoxOf(List([]), t0, t1).None?
  {
  }

  // ---------------------------------------------------------------------------------------
  // Properties of the decorators and of the BVH node
  // ---------------------------------------------------------------------------------------

  /** An `XYRect` answers with its rectangle hit. */
  lemma HitXYRect(env: Env, a0: real, a1: real, b0: real, b1: real, k: real, m: Material, ray: Ray, tmin: real, tmax: real, draws: Draws)
    ensures Hit(env, XYRect(a0, a1, b0, b1, k, m), ray, tmin, tmax, draws) == RectHit(XY, a0, a1, b0, b1, k, m, ray, tmin, tmax)
  {
  }

  /** An `XZRect` answers with its rectangle hit. */
  lemma HitXZRect(env: Env, a0: real, a1: real, b0: real, b1: real, k: real, m: Material, ray: Ray, tmin: real, tmax: real, draws: Draws)
    ensures Hit(env, XZRect(a0, a1, b0, b1, k, m), ray, tmin, tmax, draws) == RectHit(XZ, a0, a1, b0, b1, k, m, ray, tmin, tmax)
  {
  }

  /** An `YZRect` answers with its rectangle hit. */
  lemma HitYZRect(env: Env, a0: real, a1: real, b0: real, b1: real, k: real, m: Material, ray: Ray, tmin: real, tmax: real, draws: Draws)
    ensures Hit(env, YZRect(a0, a1, b0, b1, k, m), ray, tmin, tmax, draws) == RectHit(YZ, a0, a1, b0, b1, k, m, ray, tmin, tmax)
  {
  }

  /** A flipped hittable answers with the flipped hit of its child. */
  lemma HitFlipFace(env: Env, h: Hittable, ray: Ray, tmin: real, tmax: real, draws: Draws)
    ensures Hit(env, FlipFace(h), ray, tmin, tmax, draws) == Flipped(Hit(env, h, ray, tmin, tmax, draws))
  {
  }

  /** Flipping a record twice gives it back. */
  lemma FlippedTwice(inner: Option<HitRecord>)
    ensures Flipped(Flipped(inner)) == inner
  {
    if inner.Some? {
      assert Flipped(Flipped(inner)).value == inner.value;
    }
  }

  /** Flipping the face twice gives back the inner hit, and the box is unchanged. */
  lemma FlipFaceTwice(env: Env, h: Hittable, ray: Ray, tmin: real, tmax: real, draws: Draws, t0: real, t1: real)
    ensures Hit(env, FlipFace(FlipFace(h)), ray, tmin, tmax, draws) == Hit(env, h, ray, tmin, tmax, draws)
    ensures BoxOf(FlipFace(h), t0, t1) == BoxOf(h, t0, t1)
  {
    HitFlipFace(env, FlipFace(h), ray, tmin, tmax, draws);
    HitFlipFace(env, h, ray, tmin, tmax, draws);
    FlippedTwice(Hit(env, h, ray, tmin, tmax, draws));
  }

  /**
   * A translated hit lies on the original ray at the inner hit's parameter: the inner point on
   * the translated ray, moved by the offset, is the point on the original ray.
   */
  lemma TranslatedPointOnRay(ray: Ray, offset: Vec3, inner: HitRecord)
    requires inner.point == At(TranslatedRay(ray, offset), inner.time)
    ensures Translated(ray, offset, Some(inner)).value.point == At(ray, inner.time)
  {
  }

  /**
   * Translate loses the back face: an inner record whose normal faces against the ray (as every
   * `HitRecord::new` leaves it, see `Records.NewRecord`) comes out front-facing, whatever the
   * inner front face said.
   */
  lemma TranslateReportsFrontFace(ray: Ray, offset: Vec3, inner: HitRecord)
    requires Dot(ray.direction, inner.normal) < 0.0
    ensures Translated(ray, offset, Some(inner)).value.frontFace
  {
  }

  /** A translated object's hit lies in the translated box if the inner hit lies in the inner box. */
  lemma TranslateKeepsHitInBox(env: Env, h: Hittable, offset: Vec3, ray: Ray, tmin: real, tmax: real, draws: Draws, t0: real, t1: real)
    requires var inner := Hit(env, h, TranslatedRay(ray, offset), tmin, tmax, draws);
             inner.Some? ==> BoxOf(h, t0, t1).Some? && ContainsPoint(BoxOf(h, t0, t1).value, inner.value.point)
    ensures var r := Hit(env, Translate(h, offset), ray, tmin, tmax, draws);
            r.Some? ==> BoxOf(Translate(h, offset), t0, t1).Some? && ContainsPoint(BoxOf(Translate(h, offset), t0, t1).value, r.value.point)
  {
  }

  /**
   * `BvhNode::hit`: a ray that misses the node's box misses the node; otherwise the node's hit
   * is a child's hit no later than the other child's, and on a tie the right child's. The two
   * children are separate probes with their own draws.
   */
  lemma BvhHitChoice(env: Env, left: Hittable, right: Hittable, nodeBox: BoundingBox, ray: Ray, tmin: real, tmax: real, draws: Draws)
    ensures !BoxHit(nodeBox, ray, tmin, tmax) ==> Hit(env, Bvh(left, right, nodeBox), ray, tmin, tmax, draws).None?
    ensures var l := Hit(env, left, ray, tmin, tmax, Branch(draws, 0));
            var r := Hit(env, right, ray, tmin, tmax, Branch(draws, 1));
            var n := Hit(env, Bvh(left, right, nodeBox), ray, tmin, tmax, draws);
            BoxHit(nodeBox, ray, tmin, tmax) ==>
              && (n.None? <==> l.None? && r.None?)
              && (n == l || n == r)
              && (l.Some? && r.Some? ==> n.value.time <= l.value.time && n.value.time <= r.value.time)
              && (l.Some? && r.Some? && l.value.time == r.value.time ==> n == r)
  {
    HitBvh(env, left, right, nodeBox, ray, tmin, tmax, draws);
  }

  /** A BVH node answers None when its box is missed, and the nearer of its children's hits otherwise. */
  lemma HitBvh(env: Env, left: Hittable, right: Hittable, nodeBox: BoundingBox, ray: Ray, tmin: real, tmax: real, draws: Draws)
    ensures Hit(env, Bvh(left, right, nodeBox), ray, tmin, tmax, draws)
            == if !BoxHit(nodeBox, ray, tmin, tmax) then None
               else Nearer(Hit(env, left, ray, tmin, tmax, Branch(draws, 0)), Hit(env, right, ray, tmin, tmax, Branch(draws, 1)))
  {
  }

  /** `ConstantMedium::new`: the boundary, an isotropic phase function and -1 / density. */
  function NewConstantMedium(boundary: Hittable, texture: Textures.Texture, density: real): (h: Hittable)
    ensures h.ConstantMedium? && h.boundary == boundary && h.phase == Isotropic(texture)
    ensures density != 0.0 ==> h.negInvDensity * density == -1.0
    ensures forall t0, t1 :: BoxOf(h, t0, t1) == BoxOf(boundary, t0, t1)
  {
    ConstantMedium(boundary, Isotropic(texture), NegInvDensity(density))
  }

  // ---------------------------------------------------------------------------------------
  // Boxes of the primitives contain their hits
  // ---------------------------------------------------------------------------------------

  /** The hits of spheres of positive radius and of rectangles lie in their boxes. */
  lemma PrimitiveHitInBox(env: Env, h: Hittable, ray: Ray, tmin: real, tmax: real, draws: Draws, t0: real, t1: real)
    requires SoundSqrt(env)
    requires (h.Sphere? && h.radius > 0.0) || h.XYRect? || h.XZRect? || h.YZRect?
    ensures var r := Hit(env, h, ray, tmin, tmax, draws);
            r.Some? ==> ContainsPoint(BoxOf(h, t0, t1).value, r.value.point)
  {
    var r := Hit(env, h, ray, tmin, tmax, draws);
    if r.Some? {
      match h
      case Sphere(center, radius, m) => SphereInBox(center, radius, r.value.point);
      case XYRect(x0, x1, y0, y1, z, m) => RectInBox(XY, x0, x1, y0, y1, z, r.value.point);
      case XZRect(x0, x1, z0, z1, y, m) => RectInBox(XZ, x0, x1, z0, z1, y, r.value.point);
      case YZRect(y0, y1, z0, z1, x, m) => RectInBox(YZ, y0, y1, z0, z1, x, r.value.point);
    }
  }

  // ---------------------------------------------------------------------------------------
  // Materials of a record
  // ---------------------------------------------------------------------------------------

  /** The materials a hit on the object can report. */
  ghost function MaterialsOf(h: Hittable): set<Material>
    decreases h, 0
  {
    match h
    case Sphere(_, _, m) => {m}
    case MovingSphere(_, _, _, _, _, m) => {m}
    case XYRect(_, _, _, _, _, m) => {m}
    case XZRect(_, _, _, _, _, m) => {m}
    case YZRect(_, _, _, _, _, m) => {m}
    case Cube(_, _, sides) => MaterialsOfAll(sides, |sides|)
    case ConstantMedium(_, phase, _) => {phase}
    case FlipFace(child) => MaterialsOf(child)
    case Translate(child, _) => MaterialsOf(child)
    case RotateY(_, _, child, _) => MaterialsOf(child)
    case List(objects) => MaterialsOfAll(objects, |objects|)
    case Bvh(left, right, _) => MaterialsOf(left) + MaterialsOf(right)
  }

  ghost function MaterialsOfAll(objects: seq<Hittable>, k: nat): set<Material>
    requires k <= |objects|
    decreases objects, k
  {
    if k == 0 then {} else MaterialsOfAll(objects, k - 1) + MaterialsOf(objects[k - 1])
  }

  /** A hit reports the material of one of the object's parts. */
  lemma {:induction false} HitMaterialIsOwn(env: Env, h: Hittable, ray: Ray, tmin: real, tmax: real, draws: Draws)
    ensures var r := Hit(env, h, ray, tmin, tmax, draws);
            r.Some? ==> r.value.material in MaterialsOf(h)
    decreases h, 0
  {
    match h
    case Sphere(_, _, _) =>
    case MovingSphere(_, _, _, _, _, _) =>
    case XYRect(_, _, _, _, _, _) =>
    case XZRect(_, _, _, _, _, _) =>
    case YZRect(_, _, _, _, _, _) =>
    case Cube(_, _, sides) => ListHitMaterialIsOwn(env, sides, |sides|, ray, tmin, tmax, draws);
    case ConstantMedium(_, _, _) =>
    case FlipFace(child) => HitMaterialIsOwn(env, child, ray, tmin, tmax, draws);
    case Translate(child, offset) => HitMaterialIsOwn(env, child, TranslatedRay(ray, offset), tmin, tmax, draws);
    case RotateY(sin, cos, child, _) => HitMaterialIsOwn(env, child, RotatedRay(sin, cos, ray), tmin, tmax, draws);
    case List(objects) => ListHitMaterialIsOwn(env, objects, |objects|, ray, tmin, tmax, draws);
    case Bvh(left, right, _) =>
      HitMaterialIsOwn(env, left, ray, tmin, tmax, Branch(draws, 0));
      HitMaterialIsOwn(env, right, ray, tmin, tmax, Branch(draws, 1));
  }

  lemma {:induction false} ListHitMaterialIsOwn(env: Env, objects: seq<Hittable>, k: nat, ray: Ray, tmin: real, tmax: real, draws: Draws)
    requires k <= |objects|
    ensures var r := ListHit(env, objects, k, ray, tmin, tmax, draws);
            r.Some? ==> r.value.material in MaterialsOfAll(objects, k)
    decreases objects, k
  {
    if k > 0 {
      var previous := ListHit(env, objects, k - 1, ray, tmin, tmax, draws);
      ListHitMaterialIsOwn(env, objects, k - 1, ray, tmin, tmax, draws);
      HitMaterialIsOwn(env, objects[k - 1], ray, tmin, ClosestSoFar(previous, tmax), Branch(draws, k - 1));
    }
  }

  // ---------------------------------------------------------------------------------------
  // Objects without a constant medium
  // ---------------------------------------------------------------------------------------

  /** The object holds no constant medium, so none of its probes takes a draw. */
  predicate DrawFree(h: Hittable)
    decreases h, 0
  {
    match h
    case Cube(_, _, sides) => AllDrawFree(sides, |sides|)
    case ConstantMedium(_, _, _) => false
    case FlipFace(child) => DrawFree(child)
    case Translate(child, _) => DrawFree(child)
    case RotateY(_, _, child, _) => DrawFree(child)
    case List(objects) => AllDrawFree(objects, |objects|)
    case Bvh(left, right, _) => DrawFree(left) && DrawFree(right)
    case _ => true
  }

  predicate AllDrawFree(objects: seq<Hittable>, k: nat)
    requires k <= |objects|
    decreases objects, k
  {
    k == 0 || (AllDrawFree(objects, k - 1) && DrawFree(objects[k - 1]))
  }

  /** Without a constant medium the draws do not matter: any two give the same hit. */
  lemma {:induction false} DrawFreeHit(env: Env, h: Hittable, ray: Ray, tmin: real, tmax: real, d1: Draws, d2: Draws)
    requires DrawFree(h)
    ensures Hit(env, h, ray, tmin, tmax, d1) == Hit(env, h, ray, tmin, tmax, d2)
    decreases h, 0
  {
    match h
    case Sphere(_, _, _) =>
    case MovingSphere(_, _, _, _, _, _) =>
    case XYRect(_, _, _, _, _, _) =>
    case XZRect(_, _, _, _, _, _) =>
    case YZRect(_, _, _, _, _, _) =>
    case Cube(_, _, sides) => ListDrawFreeHit(env, sides, |sides|, ray, tmin, tmax, d1, d2);
    case FlipFace(child) => DrawFreeHit(env, child, ray, tmin, tmax, d1, d2);
    case Translate(child, offset) => DrawFreeHit(env, child, TranslatedRay(ray, offset), tmin, tmax, d1, d2);
    case RotateY(sin, cos, child, _) => DrawFreeHit(env, child, RotatedRay(sin, cos, ray), tmin, tmax, d1, d2);
    case List(objects) => ListDrawFreeHit(env, objects, |objects|, ray, tmin, tmax, d1, d2);
    case Bvh(left, right, _) =>
      DrawFreeHit(env, left, ray, tmin, tmax, Branch(d1, 0), Branch(d2, 0));
      DrawFreeHit(env, right, ray, tmin, tmax, Branch(d1, 1), Branch(d2, 1));
  }

  lemma {:induction false} ListDrawFreeHit(env: Env, objects: seq<Hittable>, k: nat, ray: Ray, tmin: real, tmax: real, d1: Draws, d2: Draws)
    requires k <= |objects| && AllDrawFree(objects, k)
    ensures ListHit(env, objects, k, ray, tmin, tmax, d1) == ListHit(env, objects, k, ray, tmin, tmax, d2)
    decreases objects, k
  {
    if k > 0 {
      ListDrawFreeHit(env, objects, k - 1, ray, tmin, tmax, d1, d2);
      var previous := ListHit(env, objects, k - 1, ray, tmin, tmax, d1);
      DrawFreeHit(env, objects[k - 1], ray, tmin, ClosestSoFar(previous, tmax), Branch(d1, k - 1), Branch(d2, k - 1));
    }
  }

  // ---------------------------------------------------------------------------------------
  // RotateY::new: the box around the eight rotated corners of the child's box
  // ---------------------------------------------------------------------------------------

  /** `i as f64 * hi + (1 - i) as f64 * lo` for a loop index i in {0, 1}: lo for 0, hi for 1. */
  lemma Blend(i: nat, lo: real, hi: real)
    requires i < 2
    ensures i as real * hi + (1.0 - i as real) * lo == if i == 0 then lo else hi
  {
    if i == 0 {
      assert 0.0 * hi + 1.0 * lo == lo;
    } else {
      assert i as real == 1.0;
      assert 1.0 * hi + 0.0 * lo == hi;
    }
  }

  /**
   * Corner number q (q = 4 i + 2 j + k in the order of the source's loops) of the box: x from
   * max when i = 1, y when j = 1, z when k = 1, else from min.
   */
  function Corner(b: BoundingBox, q: nat): Vec3
  {
    Vec3(if q % 8 >= 4 then b.max.x else b.min.x,
         if q % 4 >= 2 then b.max.y else b.min.y,
         if q % 2 == 1 then b.max.z else b.min.z)
  }

  /** The rotation about the y axis with the given sine and cosine. */
  function RotateAboutY(sin: real, cos: real, p: Vec3): Vec3
  {
    Vec3(cos * p.x + sin * p.z, p.y, -sin * p.x + cos * p.z)
  }

  function RotatedCorner(b: BoundingBox, sin: real, cos: real, q: nat): Vec3
  {
    RotateAboutY(sin, cos, Corner(b, q))
  }

  function MinVec(a: Vec3, b: Vec3): Vec3
  {
    Vec3(Utils.MinF64(a.x, b.x), Utils.MinF64(a.y, b.y), Utils.MinF64(a.z, b.z))
  }

  function MaxVec(a: Vec3, b: Vec3): Vec3
  {
    Vec3(Utils.MaxF64(a.x, b.x), Utils.MaxF64(a.y, b.y), Utils.MaxF64(a.z, b.z))
  }

  /** The box after the first q corners, from min = (f64::MAX, ...) and max = (f64::MIN, ...). */
  function RotatedBoxUpTo(b: BoundingBox, sin: real, cos: real, q: nat): BoundingBox
  {
    if q == 0 then BoundingBox(Vec3(Utils.F64Max, Utils.F64Max, Utils.F64Max), Vec3(Utils.F64Min, Utils.F64Min, Utils.F64Min))
    else
      var previous := RotatedBoxUpTo(b, sin, cos, q - 1);
      var corner := RotatedCorner(b, sin, cos, q - 1);
      BoundingBox(MinVec(previous.min, corner), MaxVec(previous.max, corner))
  }

  /** The box `RotateY::new` stores. */
  function RotatedBox(b: BoundingBox, sin: real, cos: real): BoundingBox
  {
    RotatedBoxUpTo(b, sin, cos, 8)
  }

  /** The box after q corners contains each of them. */
  lemma {:induction false} RotatedBoxUpToContains(b: BoundingBox, sin: real, cos: real, q: nat)
    ensures forall p :: 0 <= p < q ==> ContainsPoint(RotatedBoxUpTo(b, sin, cos, q), RotatedCorner(b, sin, cos, p))
  {
    if q > 0 {
      RotatedBoxUpToContains(b, sin, cos, q - 1);
    }
  }

  /**
   * A box of finite doubles that holds the first q corners (q at least 1) holds the box grown
   * over them: the grown box is the least one around them.
   */
  lemma {:induction false} RotatedBoxUpToWithin(b: BoundingBox, sin: real, cos: real, q: nat, c: BoundingBox)
    requires 1 <= q
    requires Utils.F64Min <= c.min.x && c.max.x <= Utils.F64Max
    requires Utils.F64Min <= c.min.y && c.max.y <= Utils.F64Max
    requires Utils.F64Min <= c.min.z && c.max.z <= Utils.F64Max
    requires forall p :: 0 <= p < q ==> ContainsPoint(c, RotatedCorner(b, sin, cos, p))
    ensures ContainsBox(c, RotatedBoxUpTo(b, sin, cos, q))
  {
    if q > 1 {
      RotatedBoxUpToWithin(b, sin, cos, q - 1, c);
    }
  }

  /** Every rotated corner of the child's box lies in the stored box. */
  lemma RotatedBoxContainsCorners(b: BoundingBox, sin: real, cos: real)
    ensures forall q :: 0 <= q < 8 ==> ContainsPoint(RotatedBox(b, sin, cos), RotatedCorner(b, sin, cos, q))
  {
    RotatedBoxUpToContains(b, sin, cos, 8);
  }

  /**
   * The stored box is the least box around the rotated corners: any box of finite doubles that
   * holds them holds it.
   */
  lemma RotatedBoxIsLeast(b: BoundingBox, sin: real, cos: real, c: BoundingBox)
    requires Utils.F64Min <= c.min.x && c.max.x <= Utils.F64Max
    requires Utils.F64Min <= c.min.y && c.max.y <= Utils.F64Max
    requires Utils.F64Min <= c.min.z && c.max.z <= Utils.F64Max
    requires forall p :: 0 <= p < 8 ==> ContainsPoint(c, RotatedCorner(b, sin, cos, p))
    ensures ContainsBox(c, RotatedBox(b, sin, cos))
  {
    RotatedBoxUpToWithin(b, sin, cos, 8, c);
  }

  /** The y extent of the first q corners (q at least 1) lies within the child's. */
  lemma {:induction false} HeightWithin(b: BoundingBox, sin: real, cos: real, q: nat)
    requires 1 <= q
    requires Utils.F64Min <= b.min.y <= b.max.y <= Utils.F64Max
    ensures b.min.y <= RotatedBoxUpTo(b, sin, cos, q).min.y
    ensures RotatedBoxUpTo(b, sin, cos, q).max.y <= b.max.y
  {
    if q > 1 {
      HeightWithin(b, sin, cos, q - 1);
    }
  }

  /** The rotation about y keeps the y extent of a box whose bounds are finite doubles. */
  lemma RotatedBoxKeepsHeight(b: BoundingBox, sin: real, cos: real)
    requires Utils.F64Min <= b.min.y <= b.max.y <= Utils.F64Max
    ensures RotatedBox(b, sin, cos).min.y == b.min.y && RotatedBox(b, sin, cos).max.y == b.max.y
  {
    HeightWithin(b, sin, cos, 8);
    RotatedBoxUpToContains(b, sin, cos, 8);
    assert RotatedCorner(b, sin, cos, 0).y == b.min.y;
    assert RotatedCorner(b, sin, cos, 2).y == b.max.y;
  }

  /** A rotation by zero degrees (sine 0, cosine 1) stores the child's box itself. */
  lemma RotateByZeroAngle(b: BoundingBox)
    requires Utils.F64Min <= b.min.x <= b.max.x <= Utils.F64Max
    requires Utils.F64Min <= b.min.y <= b.max.y <= Utils.F64Max
    requires Utils.F64Min <= b.min.z <= b.max.z <= Utils.F64Max
    ensures RotatedBox(b, 0.0, 1.0) == b
  {
    forall p | 0 <= p < 8
      ensures ContainsPoint(b, RotatedCorner(b, 0.0, 1.0, p))
    {
      assert RotatedCorner(b, 0.0, 1.0, p) == Corner(b, p);
    }
    RotatedBoxIsLeast(b, 0.0, 1.0, b);
    RotatedBoxUpToContains(b, 0.0, 1.0, 8);
    assert RotatedCorner(b, 0.0, 1.0, 0) == b.min;
    assert RotatedCorner(b, 0.0, 1.0, 7) == b.max;
  }

  /** The two component loops of one corner: min and max updated index by index. */
  method MergeCorner(min0: Vec3, max0: Vec3, tmp: Vec3) returns (min: Vec3, max: Vec3)
    ensures min == MinVec(min0, tmp) && max == MaxVec(max0, tmp)
  {
    min, max := min0, max0;
    for idx := 0 to 3
      invariant forall c :: 0 <= c < idx ==> Coord(min, c) == Utils.MinF64(Coord(min0, c), Coord(tmp, c))
      invariant forall c :: idx <= c < 3 ==> Coord(min, c) == Coord(min0, c)
      invariant forall c :: 0 <= c < idx ==> Coord(max, c) == Utils.MaxF64(Coord(max0, c), Coord(tmp, c))
      invariant forall c :: idx <= c < 3 ==> Coord(max, c) == Coord(max0, c)
    {
      min := SetIndex(min, idx, Utils.MinF64(Coord(min, idx), Coord(tmp, idx))).value;
      max := SetIndex(max, idx, Utils.MaxF64(Coord(max, idx), Coord(tmp, idx))).value;
    }
    assert Coord(min, 0) == min.x && Coord(min, 1) == min.y && Coord(min, 2) == min.z;
    assert Coord(max, 0) == max.x && Coord(max, 1) == max.y && Coord(max, 2) == max.z;
  }

  /** The body of the source's innermost corner loop: corner (i, j, k) rotated about y. */
  method CornerStep(b: BoundingBox, sin: real, cos: real, i: nat, j: nat, k: nat) returns (tmp: Vec3)
    requires i < 2 && j < 2 && k < 2
    ensures tmp == RotatedCorner(b, sin, cos, 4 * i + 2 * j + k)
  {
    var x := i as real * b.max.x + (1.0 - i as real) * b.min.x;
    var y := j as real * b.max.y + (1.0 - j as real) * b.min.y;
    var z := k as real * b.max.z + (1.0 - k as real) * b.min.z;
    var newx := cos * x + sin * z;
    var newz := -sin * x + cos * z;
    tmp := Vec3(newx, y, newz);
    var q := 4 * i + 2 * j + k;
    assert (q % 8 >= 4 <==> i == 1) && (q % 4 >= 2 <==> j == 1) && (q % 2 == 1 <==> k == 1);
    Blend(i, b.min.x, b.max.x);
    Blend(j, b.min.y, b.max.y);
    Blend(k, b.min.z, b.max.z);
  }

  /** One more corner grows the box by that corner. */
  lemma GrowStep(b: BoundingBox, sin: real, cos: real, q: nat)
    ensures var previous := RotatedBoxUpTo(b, sin, cos, q);
            RotatedBoxUpTo(b, sin, cos, q + 1)
              == BoundingBox(MinVec(previous.min, RotatedCorner(b, sin, cos, q)), MaxVec(previous.max, RotatedCorner(b, sin, cos, q)))
  {
  }

  /** One pass of the innermost corner loop: corner (i, j, k) merged into the box so far. */
  method GrowByCorner(b: BoundingBox, sin: real, cos: real, i: nat, j: nat, k: nat, min0: Vec3, max0: Vec3) returns (min: Vec3, max: Vec3)
    requires i < 2 && j < 2 && k < 2
    requires BoundingBox(min0, max0) == RotatedBoxUpTo(b, sin, cos, 4 * i + 2 * j + k)
    ensures BoundingBox(min, max) == RotatedBoxUpTo(b, sin, cos, 4 * i + 2 * j + k + 1)
  {
    var tmp := CornerStep(b, sin, cos, i, j, k);
    min, max := MergeCorner(min0, max0, tmp);
    GrowStep(b, sin, cos, 4 * i + 2 * j + k);
  }

  /** The innermost corner loop of `RotateY::new`: corners (i, j, 0) and (i, j, 1). */
  method GrowOverZ(b: BoundingBox, sin: real, cos: real, i: nat, j: nat, min0: Vec3, max0: Vec3) returns (min: Vec3, max: Vec3)
    requires i < 2 && j < 2
    requires BoundingBox(min0, max0) == RotatedBoxUpTo(b, sin, cos, 4 * i + 2 * j)
    ensures BoundingBox(min, max) == RotatedBoxUpTo(b, sin, cos, 4 * i + 2 * j + 2)
  {
    min, max := min0, max0;
    for k := 0 to 2
      invariant BoundingBox(min, max) == RotatedBoxUpTo(b, sin, cos, 4 * i + 2 * j + k)
    {
      min, max := GrowByCorner(b, sin, cos, i, j, k, min, max);
    }
  }

  /** The middle corner loop of `RotateY::new`: corners (i, 0, _) and (i, 1, _). */
  method GrowOverY(b: BoundingBox, sin: real, cos: real, i: nat, min0: Vec3, max0: Vec3) returns (min: Vec3, max: Vec3)
    requires i < 2
    requires BoundingBox(min0, max0) == RotatedBoxUpTo(b, sin, cos, 4 * i)
    ensures BoundingBox(min, max) == RotatedBoxUpTo(b, sin, cos, 4 * i + 4)
  {
    min, max := min0, max0;
    for j := 0 to 2
      invariant BoundingBox(min, max) == RotatedBoxUpTo(b, sin, cos, 4 * i + 2 * j)
    {
      min, max := GrowOverZ(b, sin, cos, i, j, min, max);
    }
  }

  /** The corner loops of `RotateY::new`: min and max grown over the eight rotated corners. */
  method RotatedBoxLoops(b: BoundingBox, sin: real, cos: real) returns (rotatedBox: BoundingBox)
    ensures rotatedBox == RotatedBox(b, sin, cos)
  {
    var min := Vec3(Utils.F64Max, Utils.F64Max, Utils.F64Max);
    var max := Vec3(Utils.F64Min, Utils.F64Min, Utils.F64Min);
    for i := 0 to 2
      invariant BoundingBox(min, max) == RotatedBoxUpTo(b, sin, cos, 4 * i)
    {
      min, max := GrowOverY(b, sin, cos, i, min, max);
    }
    rotatedBox := BoundingBox(min, max);
  }

  /**
   * `RotateY::new`: the angle in degrees gives sin and cos; the child's box over [0, 1] must
   * exist (the source unwraps it); the stored box is grown over the eight rotated corners.
   */
  method NewRotateY(env: Env, child: Hittable, angle: real) returns (r: Result<Hittable>)
    ensures r.Panic? <==> BoxOf(child, 0.0, 1.0).None?
    ensures r.Ok? ==> var sin := env.sin(angle * (Pi / 180.0));
                      var cos := env.cos(angle * (Pi / 180.0));
                      r.value == RotateY(sin, cos, child, RotatedBox(BoxOf(child, 0.0, 1.0).value, sin, cos))
  {
    var radians := angle * (Pi / 180.0);
    var sin := env.sin(radians);
    var cos := env.cos(radians);
    var objBox := BoxOf(child, 0.0, 1.0);
    if objBox.None? {
      return Panic("called `Option::unwrap()` on a `None` value");
    }
    var rotatedBox := RotatedBoxLoops(objBox.value, sin, cos);
    r := Ok(RotateY(sin, cos, child, rotatedBox));
  }
}
