# A verified model of the rust-raytracing core

This project models the core of `rust-raytracing`, a small path tracer in Rust that follows the
"Ray Tracing in One Weekend" books. The model covers:

- the vector, colour and ray algebra of `src/utils`;
- axis-aligned bounding boxes and the bounding volume hierarchy (BVH) of `src/hittable/bounding.rs`;
- hit records and the hittable decorators of `src/hittable/hittable.rs`: lists, face flipping,
  translation and the box of a y rotation;
- the primitives of `src/objects`: rectangles, spheres, moving spheres, cubes and constant media;
- the materials of `src/material` and the textures of `src/textures`, including the Perlin
  permutation tables;
- the path integrator `get_color` and the row partition of `render` in `src/scene.rs`.

Conventions of the model:

- `f64` is `real`. `sqrt`, `sin`, `cos`, `ln`, `atan2` and `asin` are fields of an `Env` value
  that is passed down (module `Numerics`). A lemma that needs one of them states the axiom it relies on as a precondition, such as
  `SoundSqrt(env)`.
- Every random draw becomes a parameter. A rejection-sampling loop takes its finite sequence of
  candidate draws.
- Every call of `ConstantMedium::hit` takes a fresh draw from the thread's generator. The model
  hands a hit query `Draws`, a function from probe paths to draws. A list probes its object k
  with branch k, a BVH node its children with branches 0 and 1, and a medium its boundary with
  branches 0 and 1. The medium itself takes the draw at the root of its branch. So no two probes
  of one query share a draw.
- A `panic!` or a failing `unwrap` becomes `Result.Panic`. Rust's `Option` is `Option`.
- The `Hittable` and `Material` trait objects become closed datatypes. `BvhNode` is the `Bvh`
  case of `Hittable`.
- `HittableList` is a class whose object vector is a `seq` field. `BvhNode::new` sorts an
  `array` in place. The Perlin shuffle permutes an `array` in place.
- `Scene::render` runs its threads one after another. Each thread's chunk of rows is computed
  in full before the next thread starts.

## Model

| member | source | states |
|---|---|---|
| Utils.MinF64 | src/utils/mod.rs:5-7 | the result is at most both arguments and is one of them; it is the first argument when that is not larger, so ties return the first |
| Utils.MaxF64 | src/utils/mod.rs:9-11 | the result is at least both arguments and is one of them; it is the first argument when that is not smaller, so ties return the first |
| Utils.MinLeMax | src/utils/mod.rs:5-11 | `min_f64(a, b) <= max_f64(a, b)` for all reals |
| Vectors.Index | src/utils/vec3.rs:112-123 | indexing succeeds exactly for indices 0, 1 and 2; any other index panics |
| Vectors.IndexIsCoord | src/utils/vec3.rs:112-123 | indices 0, 1 and 2 read x, y and z |
| Vectors.SetIndex | src/utils/vec3.rs:125-134 | a write through `index_mut` succeeds exactly for indices 0, 1 and 2 |
| Vectors.IndexAfterSetIndex | src/utils/vec3.rs:112-134 | after writing component i, reading i gives the written value and every other component is unchanged |
| Vectors.DotSymmetric | src/utils/vec3.rs:83-85 | the dot product is symmetric |
| Vectors.DotSelfIsSquaredLength | src/utils/vec3.rs:75-85 | `dot(v, v)` is `squared_length(v)`, which is never negative |
| Vectors.CrossOrthogonal | src/utils/vec3.rs:87-93 | the cross product is orthogonal to both of its arguments |
| Vectors.Lagrange | src/utils/vec3.rs:75-93 | Lagrange's identity relates dot, cross and squared length; it gives the Cauchy–Schwarz inequality |
| Vectors.ReflectAlongNormal | src/utils/vec3.rs:95-97 | for a unit normal n, `reflect(v, n) · n == -(v · n)` |
| Vectors.ReflectPreservesLength | src/utils/vec3.rs:95-97 | for a unit normal, reflection keeps the squared length |
| Vectors.UniformInRange | src/utils/vec3.rs:26-35 | a unit draw mapped into [from, to) stays in [from, to) |
| Vectors.RandomRange | src/utils/vec3.rs:26-35 | every component of `random_range(from, to)` lies in [from, to) |
| Vectors.RandomInUnitSphere | src/utils/vec3.rs:50-58 | the retry loop returns the first candidate with squared length below 1; it returns nothing iff no candidate qualifies |
| Vectors.RandomInUnitDisk | src/utils/vec3.rs:60-73 | the retry loop returns the first disk candidate with squared length below 1, and its z is 0; it returns nothing iff no candidate qualifies |
| Numerics.Length | src/utils/vec3.rs:79-81 | with a sound square root, the length is non-negative and squares to the squared length |
| Numerics.UnitVector | src/utils/vec3.rs:107-109 | a non-zero vector divided by its length has squared length 1 |
| Numerics.RandomUnit | src/utils/vec3.rs:37-48 | the height draw gives z in [-1, 1); with sound sqrt, sin and cos the vector has unit length |
| Numerics.Ratio | src/utils/vec3.rs:206 | a quotient by a non-zero divisor multiplies back to the dividend |
| Rays.AtZero | src/utils/ray.rs:19-21 | `at(0)` is the origin |
| Rays.AtDifference | src/utils/ray.rs:19-21 | `at(t1) - at(t0)` is the direction scaled by `t1 - t0` |
| Colors.BlackIsAddIdentity | src/utils/color.rs:57-67 | the default colour (0, 0, 0) is the identity of addition |
| Colors.BlackAbsorbs | src/utils/color.rs:84-90 | multiplying by black gives black |
| Colors.SubUndoesAdd | src/utils/color.rs:60-78 | subtraction undoes addition, channel by channel |
| Colors.DivUndoesMul | src/utils/color.rs:84-102 | division by a colour with no zero channel undoes multiplication by it |
| Colors.DivScalarUndoesScale | src/utils/color.rs:108-126 | division by a non-zero scalar undoes scaling by it |
| Colors.Clamp | src/utils/color.rs:41-48 | `clamp` keeps a value in [lo, hi], keeps a value already inside and sends the others to the nearer end |
| Colors.Channel | src/utils/color.rs:41-48 | a channel is a byte; a negative or zero value gives 0 and a value of at least 1 gives 255 |
| Colors.SampledChannel | src/utils/color.rs:41-48 | after dividing by the sample count, a sum of at most 0 gives 0 and a sum of at least the count gives 255 |
| Colors.ToRgbWithSamples | src/utils/color.rs:41-48 | (no contract of its own) each channel through `SampledChannel`, which states its bounds; `ToRgbWithSamplesExtremes` states the whole conversion at black and at full channels |
| Colors.ToRgb | src/utils/color.rs:33-39 | (no contract of its own) each channel through `Channel`; `ToRgbIsOneSample` relates it to one sample |
| Colors.ToRgbIsOneSample | src/utils/color.rs:33-48 | `to_rgb()` is `to_rgb_with_samples(1)` |
| Colors.ToRgbWithSamplesExtremes | src/utils/color.rs:41-48 | black converts to (0, 0, 0); channels of at least the sample count convert to (255, 255, 255) |
| Records.NewRecord | src/hittable/hittable.rs:21-33 | `front_face` holds iff the ray meets the outward normal head-on; otherwise the stored normal is negated, so the ray never points along it; every other field is stored unchanged |
| Bounding.SurroundingBox | src/hittable/bounding.rs:45-62 | the union box contains both boxes, and each of its bounds is a bound of one input |
| Bounding.SurroundingBoxLeast | src/hittable/bounding.rs:45-62 | every box containing both inputs contains their union |
| Bounding.SurroundingBoxSymmetric | src/hittable/bounding.rs:45-62 | the union does not depend on the order of its arguments |
| Bounding.ContainsBoxTransitive | src/hittable/bounding.rs:45-62 | box containment is transitive |
| Bounding.AxisSlab | src/hittable/bounding.rs:23-43 | an axis gives a bounded slab parameter interval exactly when the ray moves along that axis |
| Bounding.AxisSlabSound | src/hittable/bounding.rs:23-43 | a parameter lies in the axis interval iff the ray point at it lies strictly between the box faces on that axis; the swap for a negative inverse direction keeps this true |
| Bounding.Narrow | src/hittable/bounding.rs:23-43 | one axis step only shrinks the interval [tmin, tmax], and never beyond the slab |
| Bounding.NarrowShrinks | src/hittable/bounding.rs:23-43 | later axes only shrink the interval further |
| Bounding.SlabTest | src/hittable/bounding.rs:23-43 | the loop with its early `tmax <= tmin` exit returns the three-axis test |
| Bounding.InsideNarrowed | src/hittable/bounding.rs:23-43 | a parameter inside every slab so far stays inside the narrowed interval |
| Bounding.BoxHitIffInside | src/hittable/bounding.rs:23-43 | the box is hit iff some ray point strictly between tmin and tmax lies strictly inside the box |
| BvhNodes.Insert | src/hittable/bounding.rs:102-104 | one insertion step of the stable sort adds exactly the inserted object |
| BvhNodes.InsertSorted | src/hittable/bounding.rs:102-104 | inserting into a sequence sorted by `box_compare` keeps it sorted |
| BvhNodes.StableSort | src/hittable/bounding.rs:102-104 | the sort by box-min x returns a sorted permutation of its input |
| BvhNodes.SortSortedIsIdentity | src/hittable/bounding.rs:102-104 | sorting an already sorted vector changes nothing, so the nested sorts of the recursion are no-ops |
| BvhNodes.SortByMinX | src/hittable/bounding.rs:102-104 | `sort_by` rewrites the whole array into its stable sort |
| BvhNodes.NodeOf | src/hittable/bounding.rs:112-130 | a node is built iff both children have a box; its box is the union of the two |
| BvhNodes.Build | src/hittable/bounding.rs:78-131 | the array is sorted exactly when the range has more than two objects; construction panics when the sort meets an object without a box; otherwise the node is the recursive tree over the range as it is after the sort |
| BvhNodes.SmallChildren | src/hittable/bounding.rs:86-100 | size 1 uses the object twice; size 2 puts the strictly smaller key on the left and, on a tie, the second object |
| BvhNodes.SplitChildren | src/hittable/bounding.rs:101-109 | a range of more than two objects sorts the array, then splits at `start + size / 2` into two non-empty halves |
| BvhNodes.BuildHalves | src/hittable/bounding.rs:106-108 | on a sorted array the recursive calls leave it unchanged and return the trees of the two halves |
| BvhNodes.BuiltOnSorted | src/hittable/bounding.rs:102-108 | a nested call on a sorted array sees the array unchanged |
| BvhNodes.ChildrenOfHalves | src/hittable/bounding.rs:106-108 | the children of a large range are the trees of its two halves, with their panics passed on |
| BvhNodes.TreeBoxContains | src/hittable/bounding.rs:112-130 | a built node's box contains the box of every object of its range |
| BvhNodes.CoverHalves | src/hittable/bounding.rs:112-130 | a box containing the boxes of both halves contains the box of every object |
| BvhNodes.TreeChildren | src/hittable/bounding.rs:81-109 | (no contract of its own) the children of the node over a sorted range: one object twice, two ordered by `box_compare` with a tie putting the second on the left, or the trees over both halves split at `size / 2`; panics are passed on. `SmallChildren` and `BuildHalves` are proved equal to it |
| BvhNodes.Tree | src/hittable/bounding.rs:78-131 | (no contract of its own) the node over a sorted range, with the box around its children's boxes; `Build` is proved equal to it, and `TreeBoxContains`, `TreeHitIsObjectHit` and `TreeFindsNearest` state what it promises |
| BvhNodes.TreeHitIsObjectHit | src/hittable/bounding.rs:153-178 | any hit the tree reports is the hit of one of its objects under some draws |
| BvhNodes.TreeFindsNearest | src/hittable/bounding.rs:153-178 | when every box around an object's box is hit by each ray the object is hit by (`BoxesSeeHits`, which `InsideHitsAreSeen` establishes for hits strictly inside the object's box at times strictly inside (tmin, tmax)) and no object holds a constant medium, the tree returns the nearest hit among all of its objects |
| BvhNodes.DrawFreeHits | src/hittable/bounding.rs:153-178 | objects without a constant medium give the same hits, and the same box sightings, under any two draws |
| BvhNodes.HalfUnderBranch | src/hittable/bounding.rs:158-159 | a half of the range probed with its subtree's draws answers as under the node's draws when no object holds a medium |
| BvhNodes.SingleObjectProbedTwice | src/hittable/bounding.rs:87-90 | a node over one object, once its box is hit, misses only when both probes of the object miss, and reports the second probe's hit when the first misses |
| BvhNodes.NodeHitOnce | src/hittable/bounding.rs:153-178 | the corrected node hit: a node whose children are one object probes it once, with the first branch of the draws; any other node hits as before |
| BvhNodes.SingleObjectProbedOnce | src/hittable/bounding.rs:87-90 | with one probe, the node over one object answers exactly as the object does, constant media included |
| BvhNodes.MissedBoxMeansMiss | src/hittable/bounding.rs:153-159 | when the node box is missed, no object of the range has a hit |
| BvhNodes.NearerOfHalves | src/hittable/bounding.rs:160-177 | the nearer of the nearest hits of two halves is the nearest hit of the whole |
| BvhNodes.LeafNearest | src/hittable/bounding.rs:160-177 | for one or two objects without a constant medium, the nearer of the two child hits, each probed with its own draws, is the nearest hit |
| BvhNodes.InsideHitsAreSeen | src/hittable/bounding.rs:153-178 | objects whose hits lie strictly inside their boxes, at times strictly inside (tmin, tmax), satisfy the condition `TreeFindsNearest` needs; a hit on the boundary of its box, such as a rectangle's edge, is not covered |
| BvhNodes.HitsOfSlice | src/hittable/bounding.rs:153-178 | the hits of a sub-range are the matching slice of the hits |
| Hittables.Hit | src/hittable/hittable.rs:36-37 | (no contract of its own) the trait's `hit` over every implementor, each case the implementor's `hit`; `HitMaterialIsOwn`, `DrawFreeHit`, `PrimitiveHitInBox`, `HitBvh` and the per-case lemmas state its properties |
| Hittables.MediumThrough | src/objects/constant_medium.rs:31-75 | (no contract of its own) the boundary is probed over all of f64 and again from just after the first hit, each probe with its own draws; `MediumBetween` states the result |
| Hittables.ListHit | src/hittable/hittable.rs:64-75 | (no contract of its own) the closest-hit loop over the first k objects; `ListHitNoneIff`, `LastHitIndex` and the `HittableList.Hit` loop state it |
| Hittables.BoxOf | src/hittable/hittable.rs:36-38 | (no contract of its own) the trait's `bounding_box` over every implementor; `ListBoxContains`, `TranslatedBox`, `TreeBoxContains` and `NewConstantMedium` state its properties |
| Hittables.ListBox | src/hittable/hittable.rs:77-96 | (no contract of its own) the list box merged from the default box; `ListBoxNoneIff` and `ListBoxContains` state it |
| Hittables.DrawFree | src/hittable/hittable.rs:36-37 | (no contract of its own) the object holds no constant medium, so none of its probes takes a draw |
| Hittables.DrawFreeHit | src/objects/constant_medium.rs:56-58 | an object without a constant medium hits the same under any two draws: only a medium consumes a draw |
| Hittables.ListDrawFreeHit | src/hittable/hittable.rs:64-75 | a list without a constant medium hits the same under any two draws |
| Hittables.Nearer | src/hittable/bounding.rs:160-177 | the choice between two child hits is None iff both are None; otherwise it is the one with the smaller time, and a tie goes to the right |
| Hittables.HitBvh | src/hittable/bounding.rs:153-178 | a node whose box is missed returns None without probing its children; otherwise it returns the nearer child hit, each child probed with its own draws |
| Hittables.BvhHitChoice | src/hittable/bounding.rs:153-178 | the node's hit is None when its box is missed, and otherwise one of its children's hits, no later than the other's, the right one on a tie |
| Hittables.ListHitNoneIff | src/hittable/hittable.rs:64-75 | the closest-hit loop finds nothing iff no object reports a hit in the full interval, each object under its own draws |
| Hittables.ListHitIsLastHit | src/hittable/hittable.rs:64-75 | the result is the hit of some object probed with `tmax` shrunk to the last recorded hit |
| Hittables.LastHitIndex | src/hittable/hittable.rs:64-75 | names the object of the last recorded hit; no later object hits before that time |
| Hittables.ListBoxNoneIff | src/hittable/hittable.rs:77-96 | the list box is None iff some object has no box |
| Hittables.ListBoxStaysNone | src/hittable/hittable.rs:85-92 | once an object without a box is met, the list box stays None |
| Hittables.ListBoxContains | src/hittable/hittable.rs:82-95 | the list box contains every object's box and also the origin, because `first` is never set and every box is merged with the zero box |
| Hittables.EmptyListHasNoBox | src/hittable/hittable.rs:78-80 | an empty list has no box |
| Hittables.ListHitMaterialIsOwn | src/hittable/hittable.rs:64-75 | a list hit carries the material of one of its objects |
| Hittables.HitMaterialIsOwn | src/hittable/hittable.rs:64-75 | any hit carries a material that occurs in the hittable |
| HittableLists.HittableList.constructor | src/hittable/hittable.rs:46-50 | `HittableList::new` starts with no objects |
| HittableLists.HittableList.FromVec | src/hittable/hittable.rs:52-56 | `new_from_vec` stores the given objects |
| HittableLists.HittableList.Push | src/hittable/hittable.rs:58-60 | `push` appends exactly one object at the end |
| HittableLists.HittableList.Hit | src/hittable/hittable.rs:64-75 | the loop returns the list's closest-hit result, which is None iff no object is hit, each object probed with its own draws |
| HittableLists.HittableList.BoundingBox | src/hittable/hittable.rs:77-96 | the loop returns the list box, which is None iff the list is empty or some object has no box |
| Hittables.Flipped | src/hittable/hittable.rs:112-120 | FlipFace negates `front_face` only, and returns None iff the inner hit is None |
| Hittables.HitFlipFace | src/hittable/hittable.rs:112-120 | a FlipFace hit is its inner hit, flipped |
| Hittables.FlippedTwice | src/hittable/hittable.rs:112-120 | flipping twice gives back the inner record |
| Hittables.FlipFaceTwice | src/hittable/hittable.rs:112-124 | a doubly flipped object hits like the object itself, and FlipFace keeps the inner box |
| Hittables.Translated | src/hittable/hittable.rs:142-162 | Translate shifts the point by the offset and copies time, u, v and material; it is None iff the inner hit is None |
| Hittables.TranslatedPointOnRay | src/hittable/hittable.rs:142-162 | a point on the moved ray, shifted back, is the point of the original ray at the same time |
| Hittables.TranslateReportsFrontFace | src/hittable/hittable.rs:148-157 | the re-oriented record reports a front face when the ray meets the normal head-on |
| Hittables.TranslatedBox | src/hittable/hittable.rs:164-174 | the translated box contains exactly the shifted points of the inner box; it is None iff the inner box is |
| Hittables.TranslateKeepsHitInBox | src/hittable/hittable.rs:142-174 | if the inner object's hits lie in its box, the translated object's hits lie in the translated box |
| Hittables.RotatedRay | src/hittable/hittable.rs:224-234 | rotating the probe ray about y keeps its y components and its time |
| Hittables.RotatedBack | src/hittable/hittable.rs:236-258 | rotating a record back keeps y, time, u, v and material; it is None iff the inner hit is None |
| Hittables.RotatedBoxLoops | src/hittable/hittable.rs:191-212 | the three nested corner loops compute the box of the eight rotated corners |
| Hittables.RotatedBoxContainsCorners | src/hittable/hittable.rs:194-212 | the rotated box contains all eight rotated corners |
| Hittables.RotatedBoxIsLeast | src/hittable/hittable.rs:191-212 | any box within the f64 range that contains the eight corners contains the rotated box |
| Hittables.RotatedBoxKeepsHeight | src/hittable/hittable.rs:194-212 | the rotation keeps the y extent of the box |
| Hittables.RotateByZeroAngle | src/hittable/hittable.rs:194-212 | rotating by angle 0 (sin 0, cos 1) gives back the box |
| Hittables.NewRotateY | src/hittable/hittable.rs:185-220 | `RotateY::new` panics iff the child has no box over (0, 1); otherwise it stores sin, cos and the rotated box |
| Objects.RectRecord | src/objects/rectangles.rs:46-54 | a rectangle record lies on the ray at the hit time; its normal is the plane axis, oriented against the ray; u and v are the fractions along the two in-plane axes |
| Objects.RectHit | src/objects/rectangles.rs:32-55 | a ray parallel to the plane misses; a hit lies in the closed interval [tmin, tmax] and on the closed rectangle |
| Objects.RectHitIffCrossing | src/objects/rectangles.rs:32-55 | a rectangle is hit iff the ray crosses the closed rectangle at some time in [tmin, tmax] |
| Objects.Fraction | src/objects/rectangles.rs:46-54 | `(x - x0) / (x1 - x0)` multiplies back, and lies in [0, 1] for x in [x0, x1] |
| Objects.FractionInUnit | src/objects/rectangles.rs:46-54 | u and v of a hit inside the rectangle lie in [0, 1] |
| Objects.PlaneTime | src/objects/rectangles.rs:33-34 | the computed time puts the ray on the plane |
| Objects.RectInBox | src/objects/rectangles.rs:57-62 | the rectangle's padded box contains every point of the rectangle |
| Hittables.HitXYRect | src/objects/rectangles.rs:32-55 | an XY rectangle hits like the z-plane rectangle test |
| Hittables.HitXZRect | src/objects/rectangles.rs:88-111 | an XZ rectangle hits like the y-plane rectangle test |
| Hittables.HitYZRect | src/objects/rectangles.rs:145-168 | a YZ rectangle hits like the x-plane rectangle test |
| Objects.SphereRoot | src/objects/sphere.rs:48-70 | no root when `b² - a·c <= 0`; the smaller root if it lies strictly in (tmin, tmax), else the larger root if it does, else none |
| Objects.OnSphereAtRoots | src/objects/sphere.rs:49-57 | with a positive discriminant, the ray point at s is on the sphere iff s is one of the two roots |
| Objects.ZeroAtRoots | src/objects/sphere.rs:49-57 | the quadratic along the ray vanishes exactly at the two roots |
| Objects.QuadraticAlongRay | src/objects/sphere.rs:49-53 | the squared distance to the centre minus `radius²` is the quadratic with the source's a, half-b and c |
| Objects.SphereRootIsNearest | src/objects/sphere.rs:48-70 | the returned time puts the ray on the sphere and no earlier time in (tmin, tmax) does |
| Objects.SphereMissIsMiss | src/objects/sphere.rs:48-70 | when no root is returned and the discriminant is not zero, the ray does not meet the sphere in (tmin, tmax) |
| Objects.NoRootInside | src/objects/sphere.rs:56-69 | a parameter strictly inside the interval, where neither root lies, is not a zero of the quadratic |
| Objects.SphereRecord | src/objects/sphere.rs:25-37 | the record lies on the ray at the hit time; the normal is `(point - center) / radius`, oriented against the ray, with unit length on the sphere; (u, v) is `get_uv` as written at the outward normal, so v lies in [0, 1] and u only in [1 - π², 1] |
| Objects.SphereHit | src/objects/sphere.rs:48-70 | a hit lies strictly in (tmin, tmax), on the ray and on the sphere, with unit normal and the sphere's material |
| Objects.SphereInBox | src/objects/sphere.rs:72-77 | `center ± radius` contains every point of the sphere |
| Objects.SphereUvAsWritten | src/objects/sphere.rs:39-44 | `get_uv` as written: with atan2 and asin in their ranges, v lies in [0, 1] and u in [1 - π², 1] |
| Objects.SphereUv | src/objects/sphere.rs:39-44 | the corrected texture coordinates lie in [0, 1] × [0, 1] |
| Objects.SphereUvAsWrittenLeavesUnitRange | src/objects/sphere.rs:43 | the texture u as written is negative at the point (1, 0, 0), where the corrected formula gives 0.5 |
| Objects.FindCenter | src/objects/moving_sphere.rs:31-33 | the centre is center0 at time0 and center1 at time1; a sphere that does not move has one centre |
| Objects.MovingSphereHit | src/objects/moving_sphere.rs:35-80 | the moving sphere is hit iff the sphere at the ray's time has a root; a hit lies strictly in (tmin, tmax) and its normal is taken from the centre at the hit time |
| Objects.StillMovingSphereIsSphere | src/objects/moving_sphere.rs:58-80 | a moving sphere with equal centres hits like a sphere |
| Objects.MovingSphereBox | src/objects/moving_sphere.rs:82-97 | the box contains the sphere's boxes at t0 and at t1 |
| Objects.NegInvDensity | src/objects/constant_medium.rs:21-27 | the stored value times the density is -1, and it is negative for a positive density |
| Objects.MediumHit | src/objects/constant_medium.rs:31-75 | the medium scatters exactly when the clamped entry lies before the clamped exit and the sampled distance `-1/density · ln(draw)` is at most the path length inside; the hit time is then the entry (at least 0) plus that distance over the ray's length. The hit lies on the ray, with u = v = 0 and the phase material, and its normal is (1, 0, 0) oriented against the ray, so ±(1, 0, 0). Under `SoundSqrt`, a non-zero direction and a non-negative sampled distance, the time lies in [entry, exit] |
| Objects.MediumStep | src/objects/constant_medium.rs:65-66 | entry plus the hit distance over the ray length stays in [entry, exit] |
| Hittables.MediumBetween | src/objects/constant_medium.rs:32-52 | the medium reports a hit only when the boundary is hit twice and the clamped entry lies before the clamped exit; once both boundary hits exist, the result is `MediumHit` between their times |
| Hittables.NewConstantMedium | src/objects/constant_medium.rs:21-27 | `new` stores the boundary, an isotropic phase over the texture and `-1/density`; the medium's box is the boundary's box |
| Hittables.PrimitiveHitInBox | src/objects/rectangles.rs:57-62 | sphere and rectangle hits lie inside their boxes |
| Cubes.FromVertices | src/objects/cube.rs:17-61 | the cube holds the six sides built from the two vertices, and its box is exactly (bottom_left, top_right) at every pair of times, as `bounding_box` ignores its time arguments |
| Cubes.SideHit | src/objects/cube.rs:17-61 | each of the six sides hits on its own face of the box, and the front face is the one whose outward normal the ray meets head-on |
| Cubes.FrontSideHit | src/objects/cube.rs:21-24 | the XY side at `top_right.z` hits on the front face with outward normal +z |
| Cubes.BackSideHit | src/objects/cube.rs:27-30 | the flipped XY side at `bottom_left.z` hits on the back face with outward normal -z |
| Cubes.TopSideHit | src/objects/cube.rs:33-36 | the XZ side at `top_right.y` hits on the top face with outward normal +y |
| Cubes.BottomSideHit | src/objects/cube.rs:39-42 | the flipped XZ side at `bottom_left.y` hits on the bottom face with outward normal -y |
| Cubes.RightSideHit | src/objects/cube.rs:45-48 | the YZ side at `top_right.x` hits on the right face with outward normal +x |
| Cubes.LeftSideHit | src/objects/cube.rs:51-54 | the flipped YZ side at `bottom_left.x` hits on the left face with outward normal -x |
| Cubes.CubeHitOnSide | src/objects/cube.rs:65-67 | a cube hit lies on one of the six faces, with the front face seen from outside |
| Cubes.CubeHitInBox | src/objects/cube.rs:65-74 | every cube hit lies in the cube's box |
| Materials.Scatter | src/material/material.rs:7-9 | only lights absorb; every scattered ray starts at the hit point at the ray's time; a dielectric attenuates by white, a metal by its albedo, and a Lambertian or isotropic material by its texture at (u, v, point); the direction is the normal plus the `random_unit` draw for a Lambertian, the mirror direction plus the fuzzed `random_in_unit_sphere` draw for a metal, that draw itself for an isotropic medium (so shorter than 1 when the draw is), and the reflect-or-refract choice for a dielectric |
| Materials.LambertianScattersOutward | src/material/lambertian.rs:22-32 | with a unit normal and a unit `random_unit` draw, the diffuse direction never points into the surface and is at most 2 long |
| Materials.MetalStaysNearMirror | src/material/metal.rs:22-32 | with a draw strictly inside the unit sphere, the fuzzy direction differs from the mirror direction by at most `fuzziness` in length, strictly less unless the fuzziness is 0 |
| Materials.Emit | src/material/material.rs:11-13 | every material but a light emits black; a light emits its texture's colour at (u, v, point) |
| Materials.LambertianIgnoresIncoming | src/material/lambertian.rs:22-32 | a diffuse bounce does not depend on the incoming ray's origin or direction |
| Materials.MirrorKeepsUnitLength | src/material/metal.rs:22-32 | with fuzziness 0 the reflected direction has unit length and leaves on the other side of the surface |
| Materials.SchlickEndpoints | src/material/dielectric.rs:21-26 | `schlick(1, n)` is r0 and `schlick(0, n)` is 1 |
| Materials.SchlickIsProbability | src/material/dielectric.rs:21-26 | for n > 0 and cos in [0, 1], `schlick(cos, n)` lies in [r0, 1] |
| Materials.NormalReflectanceBelowOne | src/material/dielectric.rs:22-23 | r0 lies in [0, 1) for a positive index |
| Materials.Pow5InUnit | src/material/dielectric.rs:25 | the fifth power keeps [0, 1] |
| Materials.TotalInternalReflection | src/material/dielectric.rs:40-45 | once `index · sin > 1` the dielectric reflects, whatever the draw |
| Materials.GrazingDielectricReflects | src/material/dielectric.rs:37-41 | at grazing incidence every draw in [0, 1) reflects |
| Textures.SaturatingUsize | src/textures/image_texture.rs:28-29 | the `as usize` cast sends negatives to 0 and keeps an in-range floor |
| Textures.ClampIndex | src/textures/image_texture.rs:31-32 | the clamped index lies below n and keeps an index already in range |
| Textures.Column | src/textures/image_texture.rs:28-31 | the column lies in [0, width - 1] |
| Textures.Row | src/textures/image_texture.rs:29-32 | the row lies in [0, height - 1] |
| Textures.PixelInsideUnitSquare | src/textures/image_texture.rs:28-32 | inside the unit square the column is `floor(u · width)` and the row is `floor((1 - v) · height)`, untouched by the clamp |
| Textures.ColumnClamps | src/textures/image_texture.rs:28-31 | u below 0 gives column 0 and u of at least 1 gives the last column |
| Textures.PixelIndexInBounds | src/textures/image_texture.rs:34 | the clamped pixel lies inside the image buffer |
| Textures.ByteFraction | src/textures/image_texture.rs:36-40 | `byte / 255` lies in [0, 1] and multiplies back to the byte |
| Textures.GetPixel | src/textures/image_texture.rs:34 | the pixel at column i of row j is one of the image's own pixels |
| Textures.ImageColor | src/textures/image_texture.rs:27-41 | every channel lies in [0, 1] and is the pixel's byte over 255 |
| Textures.CheckerSign | src/textures/checker_texture.rs:23 | the product of the three sines lies in [-1, 1] when the sine does |
| Textures.NoiseColor | src/textures/perlin.rs:119-122 | the marble colour is the grey `0.5 · (1 + sin(scale · z + 10 · turbulence(p, 7)))` in every channel |
| Textures.TextureColor | src/textures/checker_texture.rs:22-31 | a constant texture gives its colour; a checker gives its odd texture's colour where the product of sines is negative and its even texture's colour elsewhere; noise and image textures give their own colours |
| Textures.CheckerOfSameTexture | src/textures/checker_texture.rs:22-31 | a checker of one texture twice is that texture |
| Textures.NoiseColorIsGrey | src/textures/perlin.rs:119-122 | with a bounded sine the noise colour is a grey in [0, 1] |
| Perlin.Swap | src/textures/perlin.rs:98-100 | a swap exchanges positions i and j and leaves every other position alone |
| Perlin.SwapIsPermutation | src/textures/perlin.rs:98-100 | a swap preserves the multiset |
| Perlin.Exchange | src/textures/perlin.rs:98-100 | the three assignments swap two entries of the array in place |
| Perlin.ShuffleIsPermutation | src/textures/perlin.rs:94-102 | the shuffle preserves the multiset |
| Perlin.ShuffleKeepsSettled | src/textures/perlin.rs:96-100 | positions above the current i are never touched again |
| Perlin.ShuffleStep | src/textures/perlin.rs:96-100 | step k swaps position `255 - k` with its draw |
| Perlin.Permutate | src/textures/perlin.rs:94-102 | the loop from 255 down to 1 performs the swap steps in place and keeps the multiset |
| Perlin.IdentityCounts | src/textures/perlin.rs:87 | the identity 0..255 holds each value below 256 once |
| Perlin.GeneratePermutation | src/textures/perlin.rs:86-92 | the result is a 256-entry table holding each of 0..255 exactly once |
| Perlin.NewPerlin | src/textures/perlin.rs:17-26 | builds exactly 256 random vectors in [-1, 1) and three shuffled permutation tables |
| Perlin.Frac | src/textures/perlin.rs:47-49 | each fractional offset lies in [0, 1) |
| Perlin.XorBound | src/textures/perlin.rs:57 | the XOR of two values below 2^n is below 2^n |
| Perlin.Xor3 | src/textures/perlin.rs:57 | the XOR of three table entries below 256 is below 256 |
| Perlin.CornerIndex | src/textures/perlin.rs:53-60 | every lookup of `rnd` is in bounds, because `& 255` keeps table indices below 256 and the XOR stays below 256 |
| Perlin.CornerPosition | src/textures/perlin.rs:53-60 | corner (ii, jj, kk) sits at position 4 ii + 2 jj + kk of the flattened array |
| Perlin.NoiseCorners | src/textures/perlin.rs:51-60 | the nested loops fill the eight corner vectors |
| Perlin.InterpolationLoop | src/textures/perlin.rs:65-84 | the nested loops sum the eight weighted corner terms |
| Perlin.NoiseAt | src/textures/perlin.rs:42-63 | `noise` fills the corners, then interpolates at the fractional offsets |
| Perlin.Noise | src/textures/perlin.rs:42-63 | (no contract of its own) the interpolation of the eight corner gradients at the fractional offsets; `NoiseAt` computes it and `NoiseVanishesOnLattice` states its zeros |
| Perlin.Smooth | src/textures/perlin.rs:66-68 | the smoothstep maps [0, 1] onto itself and fixes 0 and 1 |
| Perlin.SmoothComplement | src/textures/perlin.rs:66-68 | the smoothstep is symmetric: `smooth(1 - u) == 1 - smooth(u)` |
| Perlin.InterpolationAtCorner | src/textures/perlin.rs:65-84 | the interpolation vanishes at offset (0, 0, 0) |
| Perlin.NoiseVanishesOnLattice | src/textures/perlin.rs:42-84 | noise is 0 at every integer lattice point, whatever the tables hold |
| Perlin.Turbulence | src/textures/perlin.rs:28-40 | turbulence is non-negative, and is the absolute value of the weighted sum of octaves |
| Perlin.OctaveStep | src/textures/perlin.rs:33-37 | one round adds the weighted noise, halves the weight and doubles the point |
| Perlin.OctaveLoop | src/textures/perlin.rs:29-37 | the loop accumulates the first `depth` octaves |
| Perlin.TurbulenceLoop | src/textures/perlin.rs:28-40 | the loop followed by `abs` computes the turbulence |
| Perlin.TurbulenceVanishesOnLattice | src/textures/perlin.rs:28-40 | turbulence is 0 at every lattice point, because doubling keeps a lattice point on the lattice |
| Scenes.GetColor | src/scene.rs:79-95 | black once the depth is spent; the background when the world reports no hit; only the emitted colour when the hit does not scatter |
| Scenes.GetColorUsesDepthDraws | src/scene.rs:79-95 | the colour depends only on the draws of bounces 1 to depth, so a path queries the world at most `depth` times |
| Scenes.NoLightIsDark | src/scene.rs:79-95 | a world without lights against a black background renders black |
| Scenes.LightsEndPaths | src/scene.rs:84-91 | in a world of lights every path ends at the first hit, whatever the depth |
| Scenes.WorldOfMaterials | src/scene.rs:84 | a world built from objects without light materials is unlit, and one built only of lights hits only lights |
| Scenes.BlocksBound | src/scene.rs:29 | `blocks` is the floor of height over threads |
| Scenes.ChunkWithinHeight | src/scene.rs:44 | the rows a thread renders stay below the height, so `height - row - 1` never underflows |
| Scenes.ChunksInOrder | src/scene.rs:44 | a thread's rows end where the next thread's rows begin or earlier |
| Scenes.ChunksJoin | src/scene.rs:67-74 | the chunks of two adjacent row ranges join into the chunk of their union |
| Scenes.ImageIsFirstRows | src/scene.rs:44-74 | after t threads the image is the rows from 0 to the rows covered so far, in order |
| Scenes.ImageColorsPixel | src/scene.rs:44-74 | a covered pixel (row, col) sits at position `row · width + col` of the image |
| Scenes.ImagePixel | src/scene.rs:28-77 | each covered pixel of the rendered image is the sum of its samples' colours |
| Scenes.ImageLength | src/scene.rs:28-77 | the image holds `width` pixels per covered row |
| Scenes.FullImageIff | src/scene.rs:29-44 | the image has `width · height` pixels iff threads divides height and width is at least height |
| Scenes.CoveredIsHeightIff | src/scene.rs:29-44 | every row is covered iff threads divides height and width is at least height |
| Scenes.RowColors | src/scene.rs:45-56 | a row yields `width` pixels |
| Scenes.RowPixel | src/scene.rs:45-56 | pixel c of a row is the colour of column c |
| Scenes.ChunkLength | src/scene.rs:44-57 | a chunk of rows holds `width` pixels per row |
| Scenes.RenderPixel | src/scene.rs:46-55 | the sample loop sums the colours of the samples |
| Scenes.RenderRow | src/scene.rs:45-56 | the column loop yields the row's colours in column order |
| Scenes.RenderRows | src/scene.rs:44-57 | the row loop yields the chunk of the given rows, row after row |
| Scenes.RenderChunk | src/scene.rs:39-62 | a thread renders the chunk of its row range |
| Scenes.SpawnThreads | src/scene.rs:32-65 | thread t's result is the chunk of its row range |
| Scenes.JoinThreads | src/scene.rs:67-76 | joining appends the chunks in thread order |
| Scenes.Render | src/scene.rs:28-77 | `render` returns the image of the scene: covered rows in order, `width` pixels each |

## Left out

- Threads: `thread::spawn`, `join`, `Arc` sharing and the `eprintln!` progress messages of `render` are not modelled. The threads run one after another, which yields the same image because each thread only reads shared data.
- Scene set-up, image loading and saving, and timing in `examples/test.rs` are I/O and are not part of this model. The camera enters `Scene` as a function from the unit square to rays, because its `get_ray` is trigonometric float code.
- Floating point: `f64` is `real`. NaN, the infinities, rounding and the signed zero are not modelled. `sqrt`, `sin`, `cos`, `ln`, `atan2` and `asin` are uninterpreted fields of `Env`, with only the axioms each lemma states.
- `Vec3::refract` and `Camera` are uninterpreted or left out for the same reason; the dielectric's choice between reflection and refraction is modelled.
- Randomness: every `rand` draw is a parameter. Distributions are not modelled. A rejection loop gets a finite sequence of candidates and returns `None` when none qualifies; the source would keep drawing.
- `Ray::new` and `ScatteredRay::new` are the constructors of the `Ray` and `ScatteredRay` datatypes, which store their arguments unchanged by construction.
- Hittables.RotatedRay: `RotateY::hit` is replicated in its update order only. It computes the new z from the already-updated x, so the model does not claim that it inverts the rotation of `RotateY::new`.
- Scenes.GetColor: the contract states the depth, miss and no-scatter cases. The scattering case is `emitted + get_color(scattered, depth - 1) * attenuation`, which is the function's body; it is stated through `GetColorUsesDepthDraws` and `LightsEndPaths`.
- BvhNodes.TreeFindsNearest and BvhNodes.LeafNearest are stated only for objects without a constant medium. A node over one object probes it twice with two draws (see Findings), and two media in one node are each probed with their own draw, so with media the node's hit is the nearest of the probes' hits, not of one fixed hit per object. `TreeHitIsObjectHit` holds for all objects.
- BvhNodes.Build: requires `start < end`. In the source an empty range computes `size = 0`, reaches the split branch, and recurses on the same empty range without end; `end < start` underflows the `usize` subtraction at src/hittable/bounding.rs:81. Neither is a result the model could return.
- Textures.ImageColor: takes only images with width and height of at least 1 (the `RgbImage` type). For an empty image the source's `self.width - 1` at src/textures/image_texture.rs:31-32 underflows `usize` and panics in debug builds; that case is not modelled.
- Numerics.Ratio: a division by zero yields 0 in the model; the source yields an infinity or NaN. This covers a zero density, a zero-width rectangle and a moving sphere with `time0 == time1`.
- Integer overflow of `usize` (for example `(i + ii) & 255` on a huge lattice index) is not modelled; indices are unbounded naturals.
- The older modules `src/surfaces`, `src/materials`, `src/ray.rs` and `src/camera/camera.rs` are not part of this model. They duplicate the current code with a ray that has no time.
- The `mod.rs` files and the `Texture` trait in `src/textures/texture.rs` are only module wiring. `ConstantTexture` is the `Constant` case of the `Texture` datatype.
- Differences between the code and its documentation, where the model follows the code:
  - `Metal::scatter` always scatters. Only the older `src/materials/metal.rs` rejects a ray scattered below the surface.
  - `BvhNode::new` always sorts on axis 0, and it sorts the whole vector rather than the range [start, end).
  - In `BvhNode::hit` a tie between the two children's hit times goes to the right child.
  - The row range of a thread in `render` is capped by `width`, not `height`, so rows are dropped unless width is at least height.
  - `HittableList::bounding_box` never sets `first`, so the list box always includes the origin.

## Findings

| source | as written | input that shows it | evidently intended | confidence | as-written member | corrected member |
|---|---|---|---|---|---|---|
| src/hittable/bounding.rs:87-90 and 158-159 | a range of one object stores it as both children, and `hit` probes both | a constant medium alone in a leaf: its first probe's draw passes through, the second's scatters, and the node reports the second; the medium scatters as if twice as dense | one probe of the single object | not executed | BvhNodes.SingleObjectProbedTwice | BvhNodes.SingleObjectProbedOnce |
| src/objects/sphere.rs:43 (and src/objects/moving_sphere.rs:53) | `u = 1 - (phi + PI) / 2.0 * PI`, which by precedence is `(phi + PI) / 2 · PI` | the point (1, 0, 0), where phi = 0: u = 1 - π²/2 < 0, outside the texture square | `u = 1 - (phi + PI) / (2.0 * PI)`, which gives 0.5 there and keeps u in [0, 1] | not executed | Objects.SphereUvAsWrittenLeavesUnitRange | Objects.SphereUv |
