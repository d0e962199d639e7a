/**
 * The Cartesian-to-cylindrical transform of the reconstruction helpers.
 * The radius sqrt(x^2 + y^2) and the angle atan2(y, x) are floating-point
 * operations; they are supplied as an oracle `polar` from (x, y) to (r, phi).
 * The axial coordinate is the z coordinate itself.
 */
module Geometry {

  datatype Vec3 = Vec3(x: real, y: real, z: real)

  datatype Cyl = Cyl(r: real, phi: real, z: real)

  /** The transverse part of the transform: (x, y) to (radius, angle). */
  type Polar = (real, real) -> (real, real)

  /** One position in cylindrical coordinates. */
  function ToCylindrical(polar: Polar, p: Vec3): (c: Cyl)
    ensures c.z == p.z
    ensures (c.r, c.phi) == polar(p.x, p.y)
  {
    var (r, phi) := polar(p.x, p.y);
    Cyl(r, phi, p.z)
  }

  /** The transform applied row by row to an array of positions. */
  function FromCartesianToCyl(polar: Polar, ps: seq<Vec3>): (cs: seq<Cyl>)
    ensures |cs| == |ps|
    ensures forall i :: 0 <= i < |ps| ==> cs[i].z == ps[i].z
    ensures forall i :: 0 <= i < |ps| ==> (cs[i].r, cs[i].phi) == polar(ps[i].x, ps[i].y)
  {
    if ps == [] then [] else [ToCylindrical(polar, ps[0])] + FromCartesianToCyl(polar, ps[1..])
  }
}
