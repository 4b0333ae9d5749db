/** `HitRecord` of src/hittable/hittable.rs, generic over the material it carries. */
module Records {
  import opened Vectors
  import opened Rays

  /** What a ray query reports about the surface it hit. */
  datatype HitRecord<M> = HitRecord(point: Vec3, normal: Vec3, time: real, u: real, v: real, frontFace: bool, material: M)

  /**
   * `HitRecord::new`: the hit is on the front face iff the ray runs against the outward normal;
   * the stored normal is flipped when it does not, so it always faces against the ray.
   */
  function NewRecord<M>(ray: Ray, point: Vec3, normal: Vec3, time: real, u: real, v: real, material: M): (r: HitRecord<M>)
    ensures r.frontFace <==> Dot(ray.direction, normal) < 0.0
    ensures r.normal == (if r.frontFace then normal else Neg(normal))
    ensures Dot(ray.direction, r.normal) <= 0.0
    ensures r.point == point && r.time == time && r.u == u && r.v == v && r.material == material
  {
    var frontFace := Dot(ray.direction, normal) < 0.0;
    HitRecord(point, if frontFace then normal else Neg(normal), time, u, v, frontFace, material)
  }
}
