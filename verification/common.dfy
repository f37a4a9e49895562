/** Small value types shared by the modules of the model. */
module Common {

  /** A value that may be absent. */
  datatype Option<+T> = None | Some(value: T)

  /** A `glm::vec3` over the reals; component 0, 1, 2 is x, y, z. */
  datatype Vec3 = Vec3(x: real, y: real, z: real) {

    /** `v[axis]` */
    function Get(axis: nat): real
      requires axis < 3
    {
      if axis == 0 then x else if axis == 1 then y else z
    }

    /** The vector with component `axis` replaced by `v` (the `half[axis] = v` update). */
    function With(axis: nat, v: real): (r: Vec3)
      requires axis < 3
      ensures r.Get(axis) == v
      ensures forall other :: 0 <= other < 3 && other != axis ==> r.Get(other) == Get(other)
    {
      if axis == 0 then Vec3(v, y, z) else if axis == 1 then Vec3(x, v, z) else Vec3(x, y, v)
    }

    function Plus(o: Vec3): Vec3 { Vec3(x + o.x, y + o.y, z + o.z) }

    function Minus(o: Vec3): Vec3 { Vec3(x - o.x, y - o.y, z - o.z) }

    function Scale(k: real): Vec3 { Vec3(k * x, k * y, k * z) }
  }
}
