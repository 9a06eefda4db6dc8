/** Points and periodic images in three dimensions. */
module Vectors {
  import opened Torus

  datatype Vec = Vec(x: real, y: real, z: real) {
    function At(a: Axis): real { if a == 0 then x else if a == 1 then y else z }
  }

  datatype Image = Image(x: int, y: int, z: int)
}
