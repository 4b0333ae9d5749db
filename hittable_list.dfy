/**
 * `HittableList` of src/hittable/hittable.rs as an object: a vector of hittables that `push`
 * grows in place, with the loops of its `hit` and `bounding_box` proved against the functions
 * `Hittables.ListHit` and `Hittables.ListBox` that the `List` hittable uses.
 */
module HittableLists {
  import opened Wrappers
  import opened Numerics
  import opened Rays
  import opened Bounding
  import opened Materials
  import opened Hittables

  class HittableList {
    var objects: seq<Hittable>

    /** `HittableList::new`: an empty list. */
    constructor ()
      ensures objects == []
    {
      objects := [];
    }

    /** `HittableList::new_from_vec`: the list of the given objects, in order. */
    constructor FromVec(objects: seq<Hittable>)
      ensures this.objects == objects
    {
      this.objects := objects;
    }

    /** `push`: the object is appended after the others. */
    method Push(obj: Hittable)
      modifies this
      ensures objects == old(objects) + [obj]
    {
      objects := objects + [obj];
    }

    /** The list as the hittable it is when stored in a scene, a cube or a node. */
    function AsHittable(): Hittable
      reads this
    {
      List(objects)
    }

    /**
     * `hit`: every object is probed in order with the upper end lowered to the time of the last
     * record; the last record found is the result. Each probe takes its own draws.
     */
    method Hit(env: Env, ray: Ray, tmin: real, tmax0: real, draws: Draws) returns (result: Option<HitRecord>)
      ensures result == Hittables.Hit(env, AsHittable(), ray, tmin, tmax0, draws)
      ensures result.None? <==> forall i :: 0 <= i < |objects| ==> Hittables.Hit(env, objects[i], ray, tmin, tmax0, Branch(draws, i)).None?
    {
      result := None;
      var tmax := tmax0;
      for i := 0 to |objects|
        invariant result == ListHit(env, objects, i, ray, tmin, tmax0, draws)
        invariant tmax == ClosestSoFar(result, tmax0)
      {
        var record := Hittables.Hit(env, objects[i], ray, tmin, tmax, Branch(draws, i));
        if record.Some? {
          tmax := record.value.time;
          result := record;
        }
      }
      ListHitNoneIff(env, objects, |objects|, ray, tmin, tmax0, draws);
    }

    /**
     * `bounding_box`: None for an empty list or as soon as one object has no box; otherwise
     * every box merged into one that starts as the default box at the origin.
     */
    method BoundingBox(t0: real, t1: real) returns (result: Option<Bounding.BoundingBox>)
      ensures result == BoxOf(AsHittable(), t0, t1)
      ensures result.None? <==> |objects| == 0 || exists i :: 0 <= i < |objects| && BoxOf(objects[i], t0, t1).None?
    {
      ListBoxNoneIff(objects, |objects|, t0, t1);
      if |objects| == 0 {
        return None;
      }
      var acc := DefaultBox();
      for i := 0 to |objects|
        invariant ListBox(objects, i, t0, t1) == Some(acc)
      {
        var objBox := BoxOf(objects[i], t0, t1);
        if objBox.Some? {
          // The source's `first` flag starts false and is never set, so this is the only branch.
          acc := SurroundingBox(objBox.value, acc);
        } else {
          ListBoxStaysNone(objects, i + 1, |objects|, t0, t1);
          return None;
        }
      }
      result := Some(acc);
    }
  }
}
