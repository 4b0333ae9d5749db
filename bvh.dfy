/**
 * `BvhNode::new` of src/hittable/bounding.rs: the bounding volume hierarchy built over a range of
 * an object vector, which it sorts in place by the x coordinate of the boxes' minimum corners.
 */
module BvhNodes {
  import opened Wrappers
  import opened Numerics
  import opened Rays
  import opened Bounding
  import opened Materials
  import opened Hittables

  // ---------------------------------------------------------------------------------------
  // The sort by box_compare
  // ---------------------------------------------------------------------------------------

  /** `box_compare` reads the boxes at times (0, 0) and panics when one is missing. */
  predicate Boxed(h: Hittable)
  {
    BoxOf(h, 0.0, 0.0).Some?
  }

  predicate AllBoxed(s: seq<Hittable>)
  {
    forall i :: 0 <= i < |s| ==> Boxed(s[i])
  }

  /** The key `box_compare` orders by: the x coordinate of the box's minimum corner. */
  function Key(h: Hittable): real
    requires Boxed(h)
  {
    BoxOf(h, 0.0, 0.0).value.min.x
  }

  predicate SortedByKey(s: seq<Hittable>)
    requires AllBoxed(s)
  {
    forall i, j :: 0 <= i < j < |s| ==> Key(s[i]) <= Key(s[j])
  }

  /** x placed before the first element whose key is not smaller, so equal keys keep their order. */
  function Insert(x: Hittable, s: seq<Hittable>): (r: seq<Hittable>)
    requires Boxed(x) && AllBoxed(s)
    ensures |r| == |s| + 1 && AllBoxed(r)
    ensures multiset(r) == multiset(s) + multiset{x}
  {
    if |s| == 0 || Key(x) <= Key(s[0]) then
      [x] + s
    else
      assert s == [s[0]] + s[1..];
      [s[0]] + Insert(x, s[1..])
  }

  /** Every key of s is at least lo. */
  predicate KeysAtLeast(s: seq<Hittable>, lo: real)
    requires AllBoxed(s)
  {
    forall i :: 0 <= i < |s| ==> lo <= Key(s[i])
  }

  lemma {:induction false} InsertKeysAtLeast(x: Hittable, s: seq<Hittable>, lo: real)
    requires Boxed(x) && AllBoxed(s) && KeysAtLeast(s, lo) && lo <= Key(x)
    ensures KeysAtLeast(Insert(x, s), lo)
  {
    if |s| > 0 && Key(x) > Key(s[0]) {
      InsertKeysAtLeast(x, s[1..], lo);
    }
  }

  /** Inserting into a sorted sequence keeps it sorted. */
  lemma {:induction false} InsertSorted(x: Hittable, s: seq<Hittable>)
    requires Boxed(x) && AllBoxed(s) && SortedByKey(s)
    ensures SortedByKey(Insert(x, s))
  {
    if |s| > 0 && Key(x) > Key(s[0]) {
      InsertSorted(x, s[1..]);
      InsertKeysAtLeast(x, s[1..], Key(s[0]));
      var rest := Insert(x, s[1..]);
      assert Insert(x, s) == [s[0]] + rest;
    }
  }

  /** The stable sort `sort_by` performs with `box_compare`, as an insertion sort. */
  function StableSort(s: seq<Hittable>): (r: seq<Hittable>)
    requires AllBoxed(s)
    ensures |r| == |s| && AllBoxed(r) && SortedByKey(r)
    ensures multiset(r) == multiset(s)
  {
    if |s| == 0 then []
    else
      assert s == [s[0]] + s[1..];
      var rest := StableSort(s[1..]);
      InsertSorted(s[0], rest);
      Insert(s[0], rest)
  }

  /** Sorting an already sorted vector leaves it as it is. */
  lemma {:induction false} SortSortedIsIdentity(s: seq<Hittable>)
    requires AllBoxed(s) && SortedByKey(s)
    ensures StableSort(s) == s
  {
    if |s| > 0 {
      SortSortedIsIdentity(s[1..]);
      assert s == [s[0]] + s[1..];
    }
  }

  /** `objects.sort_by(box_compare)`: the whole vector, not only the node's range, is sorted. */
  method SortByMinX(objects: array<Hittable>)
    requires AllBoxed(objects[..])
    modifies objects
    ensures objects[..] == StableSort(old(objects[..]))
  {
    var sorted := StableSort(objects[..]);
    forall i | 0 <= i < objects.Length {
      objects[i] := sorted[i];
    }
  }

  // ---------------------------------------------------------------------------------------
  // The tree
  // ---------------------------------------------------------------------------------------

  /**
   * The children `BvhNode::new` picks for s once the vector has been sorted: one object twice,
   * two objects ordered by `box_compare` (a tie puts the second on the left), or the nodes over
   * both halves.
   */
  function TreeChildren(s: seq<Hittable>, t0: real, t1: real): Result<(Hittable, Hittable)>
    requires |s| >= 1
    decreases |s|, 0
  {
    if |s| == 1 then Ok((s[0], s[0]))
    else if |s| == 2 then
      if !Boxed(s[0]) then Panic("No box for parameter A")
      else if !Boxed(s[1]) then Panic("No box for parameter B")
      else if Key(s[0]) < Key(s[1]) then Ok((s[0], s[1]))
      else Ok((s[1], s[0]))
    else
      var mid := |s| / 2;
      match Tree(s[..mid], t0, t1)
      case Panic(e) => Panic(e)
      case Ok(left) =>
        match Tree(s[mid..], t0, t1)
        case Panic(e) => Panic(e)
        case Ok(right) => Ok((left, right))
  }

  /** The node over s: its children, whose boxes over (t0, t1) must exist, and the box around both. */
  function Tree(s: seq<Hittable>, t0: real, t1: real): Result<Hittable>
    requires |s| >= 1
    decreases |s|, 1
  {
    match TreeChildren(s, t0, t1)
    case Panic(e) => Panic(e)
    case Ok((left, right)) => NodeOf(left, right, t0, t1)
  }

  /** The node over two children, panicking like the source when a child has no box. */
  function NodeOf(left: Hittable, right: Hittable, t0: real, t1: real): (r: Result<Hittable>)
    ensures r.Ok? <==> BoxOf(left, t0, t1).Some? && BoxOf(right, t0, t1).Some?
    ensures r.Ok? ==> r.value == Bvh(left, right, SurroundingBox(BoxOf(left, t0, t1).value, BoxOf(right, t0, t1).value))
  {
    match BoxOf(left, t0, t1)
    case None => Panic("No box for left object")
    case Some(leftBox) =>
      match BoxOf(right, t0, t1)
      case None => Panic("No box for right object")
      case Some(rightBox) => Ok(Bvh(left, right, SurroundingBox(leftBox, rightBox)))
  }

  /**
   * `BvhNode::new(objects, start, end, t0, t1)`. A range of more than two objects first sorts
   * the whole vector, which panics if any object of it has no box; the nested calls sort the
   * sorted vector again, which changes nothing. The node is `Tree` over the range as it is
   * after the sort.
   */
  method Build(objects: array<Hittable>, start: nat, end: nat, t0: real, t1: real) returns (r: Result<Hittable>)
    requires start < end <= objects.Length
    modifies objects
    decreases end - start, 2
    ensures objects[..] == if end - start > 2 && AllBoxed(old(objects[..])) then StableSort(old(objects[..])) else old(objects[..])
    ensures end - start > 2 && !AllBoxed(old(objects[..])) ==> r.Panic?
    ensures end - start <= 2 || AllBoxed(old(objects[..])) ==> r == Tree(objects[start..end], t0, t1)
  {
    var children;
    if end - start <= 2 {
      children := SmallChildren(objects[start..end], t0, t1);
    } else {
      children := SplitChildren(objects, start, end, t0, t1);
    }
    if children.Panic? {
      return Panic(children.reason);
    }
    var (left, right) := children.value;
    var leftBox := BoxOf(left, t0, t1);
    if leftBox.None? {
      return Panic("No box for left object");
    }
    var rightBox := BoxOf(right, t0, t1);
    if rightBox.None? {
      return Panic("No box for right object");
    }
    r := Ok(Bvh(left, right, SurroundingBox(leftBox.value, rightBox.value)));
  }

  /** Sizes 1 and 2: the object twice, or the two ordered by `box_compare`. */
  method SmallChildren(s: seq<Hittable>, t0: real, t1: real) returns (c: Result<(Hittable, Hittable)>)
    requires 1 <= |s| <= 2
    ensures c == TreeChildren(s, t0, t1)
  {
    if |s| == 1 {
      return Ok((s[0], s[0]));
    }
    var boxA := BoxOf(s[0], 0.0, 0.0);
    var boxB := BoxOf(s[1], 0.0, 0.0);
    if boxA.None? {
      return Panic("No box for parameter A");
    }
    if boxB.None? {
      return Panic("No box for parameter B");
    }
    if boxA.value.min.x < boxB.value.min.x {
      c := Ok((s[0], s[1]));
    } else {
      c := Ok((s[1], s[0]));
    }
  }

  /** More than two objects: sort the vector, then build the nodes over both halves. */
  method SplitChildren(objects: array<Hittable>, start: nat, end: nat, t0: real, t1: real) returns (c: Result<(Hittable, Hittable)>)
    requires start + 2 < end <= objects.Length
    modifies objects
    decreases end - start, 1
    ensures objects[..] == if AllBoxed(old(objects[..])) then StableSort(old(objects[..])) else old(objects[..])
    ensures !AllBoxed(old(objects[..])) ==> c.Panic?
    ensures AllBoxed(old(objects[..])) ==> c == TreeChildren(objects[start..end], t0, t1)
  {
    if !AllBoxed(objects[..]) {
      return Panic("No box for parameter A");
    }
    SortByMinX(objects);
    c := BuildHalves(objects, start, end, t0, t1);
  }

  /** The two halves of a range are the ranges up to and from its middle. */
  lemma SliceHalves(s: seq<Hittable>, start: nat, mid: nat, end: nat)
    requires start <= mid <= end <= |s|
    ensures s[start..end][..mid - start] == s[start..mid]
    ensures s[start..end][mid - start..] == s[mid..end]
  {
  }

  /** For more than two objects the children are the trees over both halves, the left one first. */
  lemma ChildrenOfHalves(s: seq<Hittable>, t0: real, t1: real, half: nat, left: Result<Hittable>, right: Result<Hittable>)
    requires |s| > 2 && half == |s| / 2
    requires left == Tree(s[..half], t0, t1) && right == Tree(s[half..], t0, t1)
    ensures TreeChildren(s, t0, t1) == if left.Panic? then Panic(left.reason)
                                       else if right.Panic? then Panic(right.reason)
                                       else Ok((left.value, right.value))
  {
  }

  /**
   * What `Build` promises about a range of a vector that is already sorted and boxed: the vector
   * is as it was, and the node is the tree over the range.
   */
  lemma BuiltOnSorted(sorted: seq<Hittable>, lo: nat, hi: nat, after: seq<Hittable>, node: Result<Hittable>, t0: real, t1: real)
    requires lo < hi <= |sorted| && AllBoxed(sorted) && SortedByKey(sorted)
    requires after == if hi - lo > 2 && AllBoxed(sorted) then StableSort(sorted) else sorted
    requires hi - lo <= 2 || AllBoxed(sorted) ==> node == Tree(after[lo..hi], t0, t1)
    ensures after == sorted && node == Tree(sorted[lo..hi], t0, t1)
  {
    SortSortedIsIdentity(sorted);
  }

  /** The nodes over both halves of a sorted vector's range; sorting it again changes nothing. */
  method BuildHalves(objects: array<Hittable>, start: nat, end: nat, t0: real, t1: real) returns (c: Result<(Hittable, Hittable)>)
    requires start + 2 < end <= objects.Length
    requires AllBoxed(objects[..]) && SortedByKey(objects[..])
    modifies objects
    decreases end - start, 0
    ensures objects[..] == old(objects[..])
    ensures c == TreeChildren(objects[start..end], t0, t1)
  {
    ghost var sorted := objects[..];
    var size := end - start;
    var mid := start + size / 2;
    SliceHalves(sorted, start, mid, end);
    var leftNode := Build(objects, start, mid, t0, t1);
    BuiltOnSorted(sorted, start, mid, objects[..], leftNode, t0, t1);
    ChildrenOfHalves(sorted[start..end], t0, t1, size / 2, leftNode, Tree(sorted[mid..end], t0, t1));
    if leftNode.Panic? {
      return Panic(leftNode.reason);
    }
    var rightNode := Build(objects, mid, end, t0, t1);
    BuiltOnSorted(sorted, mid, end, objects[..], rightNode, t0, t1);
    if rightNode.Panic? {
      return Panic(rightNode.reason);
    }
    c := Ok((leftNode.value, rightNode.value));
  }

  // ---------------------------------------------------------------------------------------
  // Properties of the tree
  // ---------------------------------------------------------------------------------------

  /** The node's box contains the box of every object under it. */
  lemma {:induction false} TreeBoxContains(s: seq<Hittable>, t0: real, t1: real)
    requires |s| >= 1 && Tree(s, t0, t1).Ok?
    ensures Tree(s, t0, t1).value.Bvh?
    ensures forall i :: 0 <= i < |s| ==> (BoxOf(s[i], t0, t1).Some?
                                         && ContainsBox(Tree(s, t0, t1).value.nodeBox, BoxOf(s[i], t0, t1).value))
    decreases |s|
  {
    var n := Tree(s, t0, t1).value;
    var (left, right) := TreeChildren(s, t0, t1).value;
    var leftBox, rightBox := BoxOf(left, t0, t1).value, BoxOf(right, t0, t1).value;
    assert n.nodeBox == SurroundingBox(leftBox, rightBox);
    if |s| > 2 {
      var mid := |s| / 2;
      TreeBoxContains(s[..mid], t0, t1);
      TreeBoxContains(s[mid..], t0, t1);
      CoverHalves(s, mid, t0, t1, n.nodeBox, leftBox, rightBox);
    }
  }

  /** A box around the boxes of both halves is around the box of every object. */
  lemma CoverHalves(s: seq<Hittable>, mid: nat, t0: real, t1: real, b: BoundingBox, lb: BoundingBox, rb: BoundingBox)
    requires mid <= |s| && ContainsBox(b, lb) && ContainsBox(b, rb)
    requires forall i :: 0 <= i < |s[..mid]| ==> (BoxOf(s[..mid][i], t0, t1).Some? && ContainsBox(lb, BoxOf(s[..mid][i], t0, t1).value))
    requires forall i :: 0 <= i < |s[mid..]| ==> (BoxOf(s[mid..][i], t0, t1).Some? && ContainsBox(rb, BoxOf(s[mid..][i], t0, t1).value))
    ensures forall i :: 0 <= i < |s| ==> (BoxOf(s[i], t0, t1).Some? && ContainsBox(b, BoxOf(s[i], t0, t1).value))
  {
    forall i | 0 <= i < |s|
      ensures BoxOf(s[i], t0, t1).Some? && ContainsBox(b, BoxOf(s[i], t0, t1).value)
    {
      if i < mid {
        assert s[..mid][i] == s[i];
        ContainsBoxTransitive(b, lb, BoxOf(s[i], t0, t1).value);
      } else {
        assert s[mid..][i - mid] == s[i];
        ContainsBoxTransitive(b, rb, BoxOf(s[i], t0, t1).value);
      }
    }
  }

  /**
   * Every hit the node reports is the hit of one of the objects under it, probed with the draws
   * of the leaf that holds it.
   */
  lemma {:induction false} TreeHitIsObjectHit(env: Env, s: seq<Hittable>, t0: real, t1: real, ray: Ray, tmin: real, tmax: real, draws: Draws)
    requires |s| >= 1 && Tree(s, t0, t1).Ok?
    requires Hit(env, Tree(s, t0, t1).value, ray, tmin, tmax, draws).Some?
    ensures exists i, d :: 0 <= i < |s| && Hit(env, s[i], ray, tmin, tmax, d) == Hit(env, Tree(s, t0, t1).value, ray, tmin, tmax, draws)
    decreases |s|
  {
    var n := Tree(s, t0, t1).value;
    var (left, right) := TreeChildren(s, t0, t1).value;
    var h := Hit(env, n, ray, tmin, tmax, draws);
    var dl, dr := Branch(draws, 0), Branch(draws, 1);
    assert h == Hit(env, left, ray, tmin, tmax, dl) || h == Hit(env, right, ray, tmin, tmax, dr);
    if |s| <= 2 {
      if h == Hit(env, left, ray, tmin, tmax, dl) {
        assert left == s[0] || left == s[1];
      } else {
        assert right == s[0] || right == s[1];
      }
    } else {
      var mid := |s| / 2;
      if h == Hit(env, left, ray, tmin, tmax, dl) {
        TreeHitIsObjectHit(env, s[..mid], t0, t1, ray, tmin, tmax, dl);
        var i, d :| 0 <= i < mid && Hit(env, s[..mid][i], ray, tmin, tmax, d) == h;
        assert s[..mid][i] == s[i];
      } else {
        TreeHitIsObjectHit(env, s[mid..], t0, t1, ray, tmin, tmax, dr);
        var i, d :| 0 <= i < |s| - mid && Hit(env, s[mid..][i], ray, tmin, tmax, d) == h;
        assert s[mid..][i] == s[mid + i];
      }
    }
  }

  /**
   * The ray meets every box around an object it hits, as the slab test promises when each hit
   * lies strictly inside its object's box (`InsideHitsAreSeen`).
   */
  ghost predicate BoxesSeeHits(env: Env, s: seq<Hittable>, ray: Ray, tmin: real, tmax: real, draws: Draws, t0: real, t1: real)
  {
    forall i, b :: (&& 0 <= i < |s| && Hit(env, s[i], ray, tmin, tmax, draws).Some? && BoxOf(s[i], t0, t1).Some?
                    && ContainsBox(b, BoxOf(s[i], t0, t1).value)) ==> BoxHit(b, ray, tmin, tmax)
  }

  /** Hits strictly between tmin and tmax and strictly inside their objects' boxes are seen by every box around them. */
  lemma InsideHitsAreSeen(env: Env, s: seq<Hittable>, ray: Ray, tmin: real, tmax: real, draws: Draws, t0: real, t1: real)
    requires forall i :: 0 <= i < |s| && Hit(env, s[i], ray, tmin, tmax, draws).Some? ==>
               var r := Hit(env, s[i], ray, tmin, tmax, draws).value;
               && tmin < r.time < tmax && r.point == At(ray, r.time)
               && BoxOf(s[i], t0, t1).Some? && StrictlyInside(BoxOf(s[i], t0, t1).value, r.point)
    ensures BoxesSeeHits(env, s, ray, tmin, tmax, draws, t0, t1)
  {
    forall i, b | 0 <= i < |s| && Hit(env, s[i], ray, tmin, tmax, draws).Some? && BoxOf(s[i], t0, t1).Some?
                  && ContainsBox(b, BoxOf(s[i], t0, t1).value)
      ensures BoxHit(b, ray, tmin, tmax)
    {
      var r := Hit(env, s[i], ray, tmin, tmax, draws).value;
      assert StrictlyInside(b, At(ray, r.time));
      BoxHitIffInside(b, ray, tmin, tmax);
    }
  }

  lemma SubrangeSeesHits(env: Env, s: seq<Hittable>, lo: nat, hi: nat, ray: Ray, tmin: real, tmax: real, draws: Draws, t0: real, t1: real)
    requires lo <= hi <= |s| && BoxesSeeHits(env, s, ray, tmin, tmax, draws, t0, t1)
    ensures BoxesSeeHits(env, s[lo..hi], ray, tmin, tmax, draws, t0, t1)
  {
    forall i, b | 0 <= i < hi - lo && Hit(env, s[lo..hi][i], ray, tmin, tmax, draws).Some? && BoxOf(s[lo..hi][i], t0, t1).Some?
                  && ContainsBox(b, BoxOf(s[lo..hi][i], t0, t1).value)
      ensures BoxHit(b, ray, tmin, tmax)
    {
      assert s[lo..hi][i] == s[lo + i];
    }
  }

  /** The hit of each object of s, each probed with the same draws. */
  ghost function Hits(env: Env, s: seq<Hittable>, ray: Ray, tmin: real, tmax: real, draws: Draws): seq<Option<HitRecord>>
  {
    seq(|s|, i requires 0 <= i < |s| => Hit(env, s[i], ray, tmin, tmax, draws))
  }

  lemma HitsOfSlice(env: Env, s: seq<Hittable>, lo: nat, hi: nat, ray: Ray, tmin: real, tmax: real, draws: Draws)
    requires lo <= hi <= |s|
    ensures Hits(env, s[lo..hi], ray, tmin, tmax, draws) == Hits(env, s, ray, tmin, tmax, draws)[lo..hi]
  {
    var hits := Hits(env, s, ray, tmin, tmax, draws);
    forall i | 0 <= i < hi - lo
      ensures Hits(env, s[lo..hi], ray, tmin, tmax, draws)[i] == hits[lo..hi][i]
    {
      assert s[lo..hi][i] == s[lo + i];
    }
  }

  /** Objects without a constant medium answer alike under any draws, and so do their boxes' sightings. */
  lemma DrawFreeHits(env: Env, s: seq<Hittable>, ray: Ray, tmin: real, tmax: real, d1: Draws, d2: Draws, t0: real, t1: real)
    requires forall i :: 0 <= i < |s| ==> DrawFree(s[i])
    ensures Hits(env, s, ray, tmin, tmax, d1) == Hits(env, s, ray, tmin, tmax, d2)
    ensures BoxesSeeHits(env, s, ray, tmin, tmax, d1, t0, t1) ==> BoxesSeeHits(env, s, ray, tmin, tmax, d2, t0, t1)
  {
    forall i | 0 <= i < |s|
      ensures Hit(env, s[i], ray, tmin, tmax, d1) == Hit(env, s[i], ray, tmin, tmax, d2)
    {
      DrawFreeHit(env, s[i], ray, tmin, tmax, d1, d2);
    }
  }

  /** h is None exactly when every result misses, and otherwise no later than any result's hit. */
  ghost predicate NearestAmong(h: Option<HitRecord>, hits: seq<Option<HitRecord>>)
  {
    && (h.None? <==> forall i :: 0 <= i < |hits| ==> hits[i].None?)
    && (h.Some? ==> forall i :: 0 <= i < |hits| && hits[i].Some? ==> h.value.time <= hits[i].value.time)
  }

  /** h is None exactly when every object of s misses, and otherwise no later than any object's hit. */
  ghost predicate NearestOf(env: Env, h: Option<HitRecord>, s: seq<Hittable>, ray: Ray, tmin: real, tmax: real, draws: Draws)
  {
    NearestAmong(h, Hits(env, s, ray, tmin, tmax, draws))
  }

  /** The nearer of the nearest hits of both halves is the nearest hit of the whole. */
  lemma NearerOfHalves(hl: Option<HitRecord>, hr: Option<HitRecord>, hits: seq<Option<HitRecord>>, mid: nat)
    requires mid <= |hits|
    requires NearestAmong(hl, hits[..mid]) && NearestAmong(hr, hits[mid..])
    ensures NearestAmong(Nearer(hl, hr), hits)
  {
    var h := Nearer(hl, hr);
    forall i | 0 <= i < |hits|
      ensures hits[i].Some? ==> h.Some? && h.value.time <= hits[i].value.time
    {
      if i < mid {
        assert hits[..mid][i] == hits[i];
      } else {
        assert hits[mid..][i - mid] == hits[i];
      }
    }
    if h.None? {
      forall i | 0 <= i < |hits|
        ensures hits[i].None?
      {
        if i < mid {
          assert hits[..mid][i] == hits[i];
        } else {
          assert hits[mid..][i - mid] == hits[i];
        }
      }
    }
  }

  /** A ray that misses a box around every object's box hits none of the objects. */
  lemma MissedBoxMeansMiss(env: Env, s: seq<Hittable>, nodeBox: BoundingBox, ray: Ray, tmin: real, tmax: real, draws: Draws, t0: real, t1: real)
    requires BoxesSeeHits(env, s, ray, tmin, tmax, draws, t0, t1) && !BoxHit(nodeBox, ray, tmin, tmax)
    requires forall i :: 0 <= i < |s| ==> (BoxOf(s[i], t0, t1).Some? && ContainsBox(nodeBox, BoxOf(s[i], t0, t1).value))
    ensures NearestOf(env, None, s, ray, tmin, tmax, draws)
  {
  }

  /** The leaves: one result twice, or two results in either order. */
  lemma SmallNearest(a: Option<HitRecord>, b: Option<HitRecord>, hits: seq<Option<HitRecord>>)
    requires (hits == [a] && b == a) || hits == [a, b] || hits == [b, a]
    ensures NearestAmong(Nearer(a, b), hits)
  {
    if |hits| == 1 {
      assert hits[0] == a;
    } else {
      assert (hits[0] == a && hits[1] == b) || (hits[0] == b && hits[1] == a);
    }
  }

  /**
   * A leaf node over one object (twice) or two objects (in either order) without a constant
   * medium finds the nearest hit, although its children are probed with different draws.
   */
  lemma LeafNearest(env: Env, s: seq<Hittable>, left: Hittable, right: Hittable, ray: Ray, tmin: real, tmax: real, draws: Draws)
    requires |s| == 1 ==> left == s[0] && right == s[0]
    requires |s| == 2 ==> (left == s[0] && right == s[1]) || (left == s[1] && right == s[0])
    requires 1 <= |s| <= 2
    requires forall i :: 0 <= i < |s| ==> DrawFree(s[i])
    ensures NearestOf(env, Nearer(Hit(env, left, ray, tmin, tmax, Branch(draws, 0)), Hit(env, right, ray, tmin, tmax, Branch(draws, 1))),
                      s, ray, tmin, tmax, draws)
  {
    DrawFreeHit(env, left, ray, tmin, tmax, Branch(draws, 0), draws);
    DrawFreeHit(env, right, ray, tmin, tmax, Branch(draws, 1), draws);
    var hl, hr := Hit(env, left, ray, tmin, tmax, draws), Hit(env, right, ray, tmin, tmax, draws);
    var hits := Hits(env, s, ray, tmin, tmax, draws);
    if |s| == 1 {
      assert hits == [hl];
    } else {
      assert hits == [Hit(env, s[0], ray, tmin, tmax, draws), Hit(env, s[1], ray, tmin, tmax, draws)];
    }
    SmallNearest(hl, hr, hits);
  }

  /** Both halves of s inherit `BoxesSeeHits`, and their hits are the halves of the hits of s. */
  lemma Halves(env: Env, s: seq<Hittable>, mid: nat, ray: Ray, tmin: real, tmax: real, draws: Draws, t0: real, t1: real)
    requires mid <= |s| && BoxesSeeHits(env, s, ray, tmin, tmax, draws, t0, t1)
    ensures BoxesSeeHits(env, s[..mid], ray, tmin, tmax, draws, t0, t1) && BoxesSeeHits(env, s[mid..], ray, tmin, tmax, draws, t0, t1)
    ensures Hits(env, s[..mid], ray, tmin, tmax, draws) == Hits(env, s, ray, tmin, tmax, draws)[..mid]
    ensures Hits(env, s[mid..], ray, tmin, tmax, draws) == Hits(env, s, ray, tmin, tmax, draws)[mid..]
  {
    SubrangeSeesHits(env, s, 0, mid, ray, tmin, tmax, draws, t0, t1);
    SubrangeSeesHits(env, s, mid, |s|, ray, tmin, tmax, draws, t0, t1);
    HitsOfSlice(env, s, 0, mid, ray, tmin, tmax, draws);
    HitsOfSlice(env, s, mid, |s|, ray, tmin, tmax, draws);
    var hits := Hits(env, s, ray, tmin, tmax, draws);
    assert s[0..mid] == s[..mid] && s[mid..|s|] == s[mid..];
    assert hits[0..mid] == hits[..mid] && hits[mid..|s|] == hits[mid..];
  }

  /**
   * A half of s, probed with the draws of its subtree, answers like it does under the draws of
   * s: neither half holds a constant medium.
   */
  lemma HalfUnderBranch(env: Env, s: seq<Hittable>, half: seq<Hittable>, ray: Ray, tmin: real, tmax: real, draws: Draws, branch: Draws, t0: real, t1: real)
    requires forall i :: 0 <= i < |s| ==> DrawFree(s[i])
    requires |half| <= |s| && (half == s[..|half|] || half == s[|s| - |half|..])
    requires BoxesSeeHits(env, half, ray, tmin, tmax, draws, t0, t1)
    ensures forall i :: 0 <= i < |half| ==> DrawFree(half[i])
    ensures BoxesSeeHits(env, half, ray, tmin, tmax, branch, t0, t1)
    ensures Hits(env, half, ray, tmin, tmax, branch) == Hits(env, half, ray, tmin, tmax, draws)
  {
    forall i | 0 <= i < |half|
      ensures DrawFree(half[i])
    {
      if half == s[..|half|] {
        assert half[i] == s[i];
      } else {
        assert half[i] == s[|s| - |half| + i];
      }
    }
    DrawFreeHits(env, half, ray, tmin, tmax, draws, branch, t0, t1);
  }

  /**
   * When the boxes see the hits and no object holds a constant medium, the node misses exactly
   * when every object under it misses, and otherwise reports a hit no later than any object's.
   */
  lemma {:induction false} TreeFindsNearest(env: Env, s: seq<Hittable>, t0: real, t1: real, ray: Ray, tmin: real, tmax: real, draws: Draws)
    requires |s| >= 1 && Tree(s, t0, t1).Ok?
    requires forall i :: 0 <= i < |s| ==> DrawFree(s[i])
    requires BoxesSeeHits(env, s, ray, tmin, tmax, draws, t0, t1)
    ensures NearestOf(env, Hit(env, Tree(s, t0, t1).value, ray, tmin, tmax, draws), s, ray, tmin, tmax, draws)
    decreases |s|
  {
    var n := Tree(s, t0, t1).value;
    TreeBoxContains(s, t0, t1);
    var (left, right) := TreeChildren(s, t0, t1).value;
    assert n == Bvh(left, right, n.nodeBox);
    if !BoxHit(n.nodeBox, ray, tmin, tmax) {
      MissedBoxMeansMiss(env, s, n.nodeBox, ray, tmin, tmax, draws, t0, t1);
    } else {
      var dl, dr := Branch(draws, 0), Branch(draws, 1);
      var hl, hr := Hit(env, left, ray, tmin, tmax, dl), Hit(env, right, ray, tmin, tmax, dr);
      assert Hit(env, n, ray, tmin, tmax, draws) == Nearer(hl, hr);
      if |s| <= 2 {
        LeafNearest(env, s, left, right, ray, tmin, tmax, draws);
      } else {
        var mid := |s| / 2;
        Halves(env, s, mid, ray, tmin, tmax, draws, t0, t1);
        HalfUnderBranch(env, s, s[..mid], ray, tmin, tmax, draws, dl, t0, t1);
        HalfUnderBranch(env, s, s[mid..], ray, tmin, tmax, draws, dr, t0, t1);
        TreeFindsNearest(env, s[..mid], t0, t1, ray, tmin, tmax, dl);
        TreeFindsNearest(env, s[mid..], t0, t1, ray, tmin, tmax, dr);
        NearerOfHalves(hl, hr, Hits(env, s, ray, tmin, tmax, draws), mid);
      }
    }
  }

  // ---------------------------------------------------------------------------------------
  // A node over one object probes it twice
  // ---------------------------------------------------------------------------------------

  /**
   * `BvhNode::new` over one object stores it as both children, so `BvhNode::hit` probes it
   * twice with separate draws: once the box is hit, the node misses only when both probes miss,
   * and a constant medium whose first probe passes through without scattering still scatters
   * when the second probe's draw lets it.
   */
  lemma SingleObjectProbedTwice(env: Env, h: Hittable, t0: real, t1: real, ray: Ray, tmin: real, tmax: real, draws: Draws)
    requires Tree([h], t0, t1).Ok? && BoxHit(Tree([h], t0, t1).value.nodeBox, ray, tmin, tmax)
    ensures var n := Hit(env, Tree([h], t0, t1).value, ray, tmin, tmax, draws);
            && (n.None? <==> Hit(env, h, ray, tmin, tmax, Branch(draws, 0)).None? && Hit(env, h, ray, tmin, tmax, Branch(draws, 1)).None?)
            && (Hit(env, h, ray, tmin, tmax, Branch(draws, 0)).None? ==> n == Hit(env, h, ray, tmin, tmax, Branch(draws, 1)))
  {
    var node := Tree([h], t0, t1).value;
    assert node == Bvh(h, h, node.nodeBox);
    HitBvh(env, h, h, node.nodeBox, ray, tmin, tmax, draws);
  }

  /**
   * The node hit with a one-object leaf probed once: what `BvhNode::hit` evidently intends, so
   * that every object under the node is probed exactly once.
   */
  function NodeHitOnce(env: Env, n: Hittable, ray: Ray, tmin: real, tmax: real, draws: Draws): (r: Option<HitRecord>)
    ensures n.Bvh? && n.left == n.right ==>
              r == if BoxHit(n.nodeBox, ray, tmin, tmax) then Hit(env, n.left, ray, tmin, tmax, Branch(draws, 0)) else None
    ensures !(n.Bvh? && n.left == n.right) ==> r == Hit(env, n, ray, tmin, tmax, draws)
  {
    if n.Bvh? && n.left == n.right then
      if BoxHit(n.nodeBox, ray, tmin, tmax) then Hit(env, n.left, ray, tmin, tmax, Branch(draws, 0)) else None
    else Hit(env, n, ray, tmin, tmax, draws)
  }

  /**
   * With one probe, the node over a single object answers exactly as the object does, constant
   * media included, whenever its box sees the object's hits.
   */
  lemma SingleObjectProbedOnce(env: Env, h: Hittable, t0: real, t1: real, ray: Ray, tmin: real, tmax: real, draws: Draws)
    requires Tree([h], t0, t1).Ok?
    requires BoxesSeeHits(env, [h], ray, tmin, tmax, Branch(draws, 0), t0, t1)
    ensures NodeHitOnce(env, Tree([h], t0, t1).value, ray, tmin, tmax, draws) == Hit(env, h, ray, tmin, tmax, Branch(draws, 0))
  {
    var node := Tree([h], t0, t1).value;
    TreeBoxContains([h], t0, t1);
    assert node == Bvh(h, h, node.nodeBox);
    assert [h][0] == h;
  }
}
