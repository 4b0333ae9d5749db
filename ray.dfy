/** Rays with a time stamp (motion blur) and scattered rays, from src/utils/ray.rs. */
module Rays {
  import opened Vectors
  import Colors

  /** `Ray::new(origin, direction, time)` stores its three arguments as they are. */
  datatype Ray = Ray(origin: Vec3, direction: Vec3, time: real)

  /** `ScatteredRay::new(ray, attenuation)`: the continuation ray and the colour it is filtered by. */
  datatype ScatteredRay = ScatteredRay(ray: Ray, attenuation: Colors.Color)

  /** `Ray::at`: origin + direction * t. */
  function At(ray: Ray, t: real): Vec3
  {
    Add(ray.origin, Scale(ray.direction, t))
  }

  /** The ray starts at its origin. */
  lemma AtZero(ray: Ray)
    ensures At(ray, 0.0) == ray.origin
  {
  }

  /** Moving along the ray from t0 to t1 covers direction * (t1 - t0). */
  lemma AtDifference(ray: Ray, t0: real, t1: real)
    ensures Sub(At(ray, t1), At(ray, t0)) == Scale(ray.direction, t1 - t0)
  {
    var d := ray.direction;
    assert d.x * t1 - d.x * t0 == d.x * (t1 - t0);
    assert d.y * t1 - d.y * t0 == d.y * (t1 - t0);
    assert d.z * t1 - d.z * t0 == d.z * (t1 - t0);
  }
}
