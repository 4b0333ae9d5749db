/**
 * `Cube` of src/objects/cube.rs: an axis-aligned box made of six rectangles, the three at the
 * bottom-left corner wrapped in `FlipFace`, so that each side reports a front face where the
 * ray enters the box.
 */
module Cubes {
  import opened Wrappers
  import opened Vectors
  import opened Numerics
  import opened Rays
  import opened Bounding
  import opened Materials
  import opened Objects
  import opened Hittables
  import HittableLists

  /** The six sides in the order `from_vertices` pushes them: front, back, top, bottom, right, left. */
  function CubeSides(bl: Vec3, tr: Vec3, m: Material): seq<Hittable>
  {
    [ XYRect(bl.x, tr.x, bl.y, tr.y, tr.z, m),
      FlipFace(XYRect(bl.x, tr.x, bl.y, tr.y, bl.z, m)),
      XZRect(bl.x, tr.x, bl.z, tr.z, tr.y, m),
      FlipFace(XZRect(bl.x, tr.x, bl.z, tr.z, bl.y, m)),
      YZRect(bl.y, tr.y, bl.z, tr.z, tr.x, m),
      FlipFace(YZRect(bl.y, tr.y, bl.z, tr.z, bl.x, m)) ]
  }

  /** `Cube::from_vertices`: the sides are pushed one by one onto a fresh list. */
  method FromVertices(bl: Vec3, tr: Vec3, m: Material) returns (cube: Hittable)
    ensures cube == Cube(bl, tr, CubeSides(bl, tr, m))
    ensures forall t0: real, t1: real :: BoxOf(cube, t0, t1) == Some(BoundingBox(bl, tr))
  {
    var sides := new HittableLists.HittableList();
    sides.Push(XYRect(bl.x, tr.x, bl.y, tr.y, tr.z, m));
    sides.Push(FlipFace(XYRect(bl.x, tr.x, bl.y, tr.y, bl.z, m)));
    sides.Push(XZRect(bl.x, tr.x, bl.z, tr.z, tr.y, m));
    sides.Push(FlipFace(XZRect(bl.x, tr.x, bl.z, tr.z, bl.y, m)));
    sides.Push(YZRect(bl.y, tr.y, bl.z, tr.z, tr.x, m));
    sides.Push(FlipFace(YZRect(bl.y, tr.y, bl.z, tr.z, bl.x, m)));
    cube := Cube(bl, tr, sides.objects);
  }

  /** The outward normal of side j (0 <= j < 6): +z, -z, +y, -y, +x, -x. */
  function Outward(j: nat): Vec3
  {
    if j == 0 then Vec3(0.0, 0.0, 1.0) else if j == 1 then Vec3(0.0, 0.0, -1.0)
    else if j == 2 then Vec3(0.0, 1.0, 0.0) else if j == 3 then Vec3(0.0, -1.0, 0.0)
    else if j == 4 then Vec3(1.0, 0.0, 0.0) else Vec3(-1.0, 0.0, 0.0)
  }

  /** Against an outward normal, the dot product is the signed direction component across the side. */
  lemma DotOutward(d: Vec3)
    ensures Dot(d, Outward(0)) == d.z && Dot(d, Outward(1)) == -d.z
    ensures Dot(d, Outward(2)) == d.y && Dot(d, Outward(3)) == -d.y
    ensures Dot(d, Outward(4)) == d.x && Dot(d, Outward(5)) == -d.x
  {
  }

  /** The point lies in the closed box on the plane of side j. */
  predicate OnSide(bl: Vec3, tr: Vec3, j: nat, p: Vec3)
  {
    && ContainsPoint(BoundingBox(bl, tr), p)
    && (if j == 0 then p.z == tr.z else if j == 1 then p.z == bl.z
        else if j == 2 then p.y == tr.y else if j == 3 then p.y == bl.y
        else if j == 4 then p.x == tr.x else p.x == bl.x)
  }

  /** A rectangle's hit lies on the rectangle, facing front exactly when the ray runs against the normal axis. */
  lemma RectSide(p: Plane, a0: real, a1: real, b0: real, b1: real, k: real, m: Material, ray: Ray, tmin: real, tmax: real)
    ensures var r := RectHit(p, a0, a1, b0, b1, k, m, ray, tmin, tmax);
            r.Some? ==> && OnRect(p, a0, a1, b0, b1, k, r.value.point)
                        && Coord(ray.direction, NormalAxis(p)) != 0.0
                        && (r.value.frontFace <==> Coord(ray.direction, NormalAxis(p)) < 0.0)
  {
  }

  /** The front side, at z = tr.z, facing +z. */
  lemma FrontSide(bl: Vec3, tr: Vec3, d: Vec3, rect: Option<HitRecord>)
    requires bl.x <= tr.x && bl.y <= tr.y && bl.z <= tr.z
    requires rect.Some? ==> OnRect(XY, bl.x, tr.x, bl.y, tr.y, tr.z, rect.value.point) && d.z != 0.0 && (rect.value.frontFace <==> d.z < 0.0)
    ensures rect.Some? ==> OnSide(bl, tr, 0, rect.value.point) && (rect.value.frontFace <==> Dot(d, Outward(0)) < 0.0)
  {
    DotOutward(d);
  }

  /** The back side, at z = bl.z, flipped to face -z. */
  lemma BackSide(bl: Vec3, tr: Vec3, d: Vec3, rect: Option<HitRecord>)
    requires bl.x <= tr.x && bl.y <= tr.y && bl.z <= tr.z
    requires rect.Some? ==> OnRect(XY, bl.x, tr.x, bl.y, tr.y, bl.z, rect.value.point) && d.z != 0.0 && (rect.value.frontFace <==> d.z < 0.0)
    ensures var r := Flipped(rect);
            r.Some? ==> OnSide(bl, tr, 1, r.value.point) && (r.value.frontFace <==> Dot(d, Outward(1)) < 0.0)
  {
    DotOutward(d);
    if rect.Some? {
      assert Flipped(rect).value.point == rect.value.point;
    }
  }

  /** The top side, at y = tr.y, facing +y. */
  lemma TopSide(bl: Vec3, tr: Vec3, d: Vec3, rect: Option<HitRecord>)
    requires bl.x <= tr.x && bl.y <= tr.y && bl.z <= tr.z
    requires rect.Some? ==> OnRect(XZ, bl.x, tr.x, bl.z, tr.z, tr.y, rect.value.point) && d.y != 0.0 && (rect.value.frontFace <==> d.y < 0.0)
    ensures rect.Some? ==> OnSide(bl, tr, 2, rect.value.point) && (rect.value.frontFace <==> Dot(d, Outward(2)) < 0.0)
  {
    DotOutward(d);
  }

  /** The bottom side, at y = bl.y, flipped to face -y. */
  lemma BottomSide(bl: Vec3, tr: Vec3, d: Vec3, rect: Option<HitRecord>)
    requires bl.x <= tr.x && bl.y <= tr.y && bl.z <= tr.z
    requires rect.Some? ==> OnRect(XZ, bl.x, tr.x, bl.z, tr.z, bl.y, rect.value.point) && d.y != 0.0 && (rect.value.frontFace <==> d.y < 0.0)
    ensures var r := Flipped(rect);
            r.Some? ==> OnSide(bl, tr, 3, r.value.point) && (r.value.frontFace <==> Dot(d, Outward(3)) < 0.0)
  {
    DotOutward(d);
    if rect.Some? {
      assert Flipped(rect).value.point == rect.value.point;
    }
  }

  /** The right side, at x = tr.x, facing +x. */
  lemma RightSide(bl: Vec3, tr: Vec3, d: Vec3, rect: Option<HitRecord>)
    requires bl.x <= tr.x && bl.y <= tr.y && bl.z <= tr.z
    requires rect.Some? ==> OnRect(YZ, bl.y, tr.y, bl.z, tr.z, tr.x, rect.value.point) && d.x != 0.0 && (rect.value.frontFace <==> d.x < 0.0)
    ensures rect.Some? ==> OnSide(bl, tr, 4, rect.value.point) && (rect.value.frontFace <==> Dot(d, Outward(4)) < 0.0)
  {
    DotOutward(d);
  }

  /** The left side, at x = bl.x, flipped to face -x. */
  lemma LeftSide(bl: Vec3, tr: Vec3, d: Vec3, rect: Option<HitRecord>)
    requires bl.x <= tr.x && bl.y <= tr.y && bl.z <= tr.z
    requires rect.Some? ==> OnRect(YZ, bl.y, tr.y, bl.z, tr.z, bl.x, rect.value.point) && d.x != 0.0 && (rect.value.frontFace <==> d.x < 0.0)
    ensures var r := Flipped(rect);
            r.Some? ==> OnSide(bl, tr, 5, r.value.point) && (r.value.frontFace <==> Dot(d, Outward(5)) < 0.0)
  {
    DotOutward(d);
    if rect.Some? {
      assert Flipped(rect).value.point == rect.value.point;
    }
  }

  /** Each side's hittable, as `CubeSides` lists it, meets the ray on that side of the box. */
  lemma FrontSideHit(bl: Vec3, tr: Vec3, m: Material, env: Env, ray: Ray, tmin: real, tmax: real, draws: Draws)
    requires bl.x <= tr.x && bl.y <= tr.y && bl.z <= tr.z
    ensures var r := Hit(env, XYRect(bl.x, tr.x, bl.y, tr.y, tr.z, m), ray, tmin, tmax, draws);
            r.Some? ==> OnSide(bl, tr, 0, r.value.point) && (r.value.frontFace <==> Dot(ray.direction, Outward(0)) < 0.0)
  {
    HitXYRect(env, bl.x, tr.x, bl.y, tr.y, tr.z, m, ray, tmin, tmax, draws);
    RectSide(XY, bl.x, tr.x, bl.y, tr.y, tr.z, m, ray, tmin, tmax);
    FrontSide(bl, tr, ray.direction, RectHit(XY, bl.x, tr.x, bl.y, tr.y, tr.z, m, ray, tmin, tmax));
  }

  lemma BackSideHit(bl: Vec3, tr: Vec3, m: Material, env: Env, ray: Ray, tmin: real, tmax: real, draws: Draws)
    requires bl.x <= tr.x && bl.y <= tr.y && bl.z <= tr.z
    ensures var r := Hit(env, FlipFace(XYRect(bl.x, tr.x, bl.y, tr.y, bl.z, m)), ray, tmin, tmax, draws);
            r.Some? ==> OnSide(bl, tr, 1, r.value.point) && (r.value.frontFace <==> Dot(ray.direction, Outward(1)) < 0.0)
  {
    HitXYRect(env, bl.x, tr.x, bl.y, tr.y, bl.z, m, ray, tmin, tmax, draws);
    HitFlipFace(env, XYRect(bl.x, tr.x, bl.y, tr.y, bl.z, m), ray, tmin, tmax, draws);
    RectSide(XY, bl.x, tr.x, bl.y, tr.y, bl.z, m, ray, tmin, tmax);
    BackSide(bl, tr, ray.direction, RectHit(XY, bl.x, tr.x, bl.y, tr.y, bl.z, m, ray, tmin, tmax));
  }

  lemma TopSideHit(bl: Vec3, tr: Vec3, m: Material, env: Env, ray: Ray, tmin: real, tmax: real, draws: Draws)
    requires bl.x <= tr.x && bl.y <= tr.y && bl.z <= tr.z
    ensures var r := Hit(env, XZRect(bl.x, tr.x, bl.z, tr.z, tr.y, m), ray, tmin, tmax, draws);
            r.Some? ==> OnSide(bl, tr, 2, r.value.point) && (r.value.frontFace <==> Dot(ray.direction, Outward(2)) < 0.0)
  {
    HitXZRect(env, bl.x, tr.x, bl.z, tr.z, tr.y, m, ray, tmin, tmax, draws);
    RectSide(XZ, bl.x, tr.x, bl.z, tr.z, tr.y, m, ray, tmin, tmax);
    TopSide(bl, tr, ray.direction, RectHit(XZ, bl.x, tr.x, bl.z, tr.z, tr.y, m, ray, tmin, tmax));
  }

  lemma BottomSideHit(bl: Vec3, tr: Vec3, m: Material, env: Env, ray: Ray, tmin: real, tmax: real, draws: Draws)
    requires bl.x <= tr.x && bl.y <= tr.y && bl.z <= tr.z
    ensures var r := Hit(env, FlipFace(XZRect(bl.x, tr.x, bl.z, tr.z, bl.y, m)), ray, tmin, tmax, draws);
            r.Some? ==> OnSide(bl, tr, 3, r.value.point) && (r.value.frontFace <==> Dot(ray.direction, Outward(3)) < 0.0)
  {
    HitXZRect(env, bl.x, tr.x, bl.z, tr.z, bl.y, m, ray, tmin, tmax, draws);
    HitFlipFace(env, XZRect(bl.x, tr.x, bl.z, tr.z, bl.y, m), ray, tmin, tmax, draws);
    RectSide(XZ, bl.x, tr.x, bl.z, tr.z, bl.y, m, ray, tmin, tmax);
    BottomSide(bl, tr, ray.direction, RectHit(XZ, bl.x, tr.x, bl.z, tr.z, bl.y, m, ray, tmin, tmax));
  }

  lemma RightSideHit(bl: Vec3, tr: Vec3, m: Material, env: Env, ray: Ray, tmin: real, tmax: real, draws: Draws)
    requires bl.x <= tr.x && bl.y <= tr.y && bl.z <= tr.z
    ensures var r := Hit(env, YZRect(bl.y, tr.y, bl.z, tr.z, tr.x, m), ray, tmin, tmax, draws);
            r.Some? ==> OnSide(bl, tr, 4, r.value.point) && (r.value.frontFace <==> Dot(ray.direction, Outward(4)) < 0.0)
  {
    HitYZRect(env, bl.y, tr.y, bl.z, tr.z, tr.x, m, ray, tmin, tmax, draws);
    RectSide(YZ, bl.y, tr.y, bl.z, tr.z, tr.x, m, ray, tmin, tmax);
    RightSide(bl, tr, ray.direction, RectHit(YZ, bl.y, tr.y, bl.z, tr.z, tr.x, m, ray, tmin, tmax));
  }

  lemma LeftSideHit(bl: Vec3, tr: Vec3, m: Material, env: Env, ray: Ray, tmin: real, tmax: real, draws: Draws)
    requires bl.x <= tr.x && bl.y <= tr.y && bl.z <= tr.z
    ensures var r := Hit(env, FlipFace(YZRect(bl.y, tr.y, bl.z, tr.z, bl.x, m)), ray, tmin, tmax, draws);
            r.Some? ==> OnSide(bl, tr, 5, r.value.point) && (r.value.frontFace <==> Dot(ray.direction, Outward(5)) < 0.0)
  {
    HitYZRect(env, bl.y, tr.y, bl.z, tr.z, bl.x, m, ray, tmin, tmax, draws);
    HitFlipFace(env, YZRect(bl.y, tr.y, bl.z, tr.z, bl.x, m), ray, tmin, tmax, draws);
    RectSide(YZ, bl.y, tr.y, bl.z, tr.z, bl.x, m, ray, tmin, tmax);
    LeftSide(bl, tr, ray.direction, RectHit(YZ, bl.y, tr.y, bl.z, tr.z, bl.x, m, ray, tmin, tmax));
  }

  /**
   * A hit on side j of a cube with bl <= tr lies on that side, and it is a front face exactly
   * when the ray runs against the side's outward normal, that is, enters the box there.
   */
  lemma SideHit(bl: Vec3, tr: Vec3, m: Material, j: nat, env: Env, ray: Ray, tmin: real, tmax: real, draws: Draws)
    requires j < 6 && bl.x <= tr.x && bl.y <= tr.y && bl.z <= tr.z
    ensures var r := Hit(env, CubeSides(bl, tr, m)[j], ray, tmin, tmax, draws);
            r.Some? ==> OnSide(bl, tr, j, r.value.point) && (r.value.frontFace <==> Dot(ray.direction, Outward(j)) < 0.0)
  {
    if j == 0 {
      FrontSideHit(bl, tr, m, env, ray, tmin, tmax, draws);
    } else if j == 1 {
      BackSideHit(bl, tr, m, env, ray, tmin, tmax, draws);
    } else if j == 2 {
      TopSideHit(bl, tr, m, env, ray, tmin, tmax, draws);
    } else if j == 3 {
      BottomSideHit(bl, tr, m, env, ray, tmin, tmax, draws);
    } else if j == 4 {
      RightSideHit(bl, tr, m, env, ray, tmin, tmax, draws);
    } else {
      LeftSideHit(bl, tr, m, env, ray, tmin, tmax, draws);
    }
  }

  /**
   * The cube's hit, for bl <= tr: a point of the closed box on one of the six sides, and a
   * front face exactly when the ray enters the box through that side.
   */
  lemma CubeHitOnSide(bl: Vec3, tr: Vec3, m: Material, env: Env, ray: Ray, tmin: real, tmax: real, draws: Draws)
    requires bl.x <= tr.x && bl.y <= tr.y && bl.z <= tr.z
    ensures var r := Hit(env, Cube(bl, tr, CubeSides(bl, tr, m)), ray, tmin, tmax, draws);
            r.Some? ==> exists j :: 0 <= j < 6 && OnSide(bl, tr, j, r.value.point)
                                   && (r.value.frontFace <==> Dot(ray.direction, Outward(j)) < 0.0)
  {
    var sides := CubeSides(bl, tr, m);
    var r := Hit(env, Cube(bl, tr, sides), ray, tmin, tmax, draws);
    if r.Some? {
      var j := LastHitIndex(env, sides, 6, ray, tmin, tmax, draws);
      SideHit(bl, tr, m, j, env, ray, tmin, ClosestSoFar(ListHit(env, sides, j, ray, tmin, tmax, draws), tmax), Branch(draws, j));
    }
  }

  /** So a cube hit lies in the cube's box. */
  lemma CubeHitInBox(bl: Vec3, tr: Vec3, m: Material, env: Env, ray: Ray, tmin: real, tmax: real, draws: Draws, t0: real, t1: real)
    requires bl.x <= tr.x && bl.y <= tr.y && bl.z <= tr.z
    ensures var r := Hit(env, Cube(bl, tr, CubeSides(bl, tr, m)), ray, tmin, tmax, draws);
            r.Some? ==> ContainsPoint(BoxOf(Cube(bl, tr, CubeSides(bl, tr, m)), t0, t1).value, r.value.point)
  {
    CubeHitOnSide(bl, tr, m, env, ray, tmin, tmax, draws);
  }
}
