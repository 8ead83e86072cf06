/** Integer triples, for accelerations, velocities and positions. */
module Vectors {
  datatype Vec = Vec(x: int, y: int, z: int)

  const Zero: Vec := Vec(0, 0, 0)

  function Minus(a: Vec, b: Vec): Vec {
    Vec(a.x - b.x, a.y - b.y, a.z - b.z)
  }

  function Plus(a: Vec, b: Vec): Vec {
    Vec(a.x + b.x, a.y + b.y, a.z + b.z)
  }
}
