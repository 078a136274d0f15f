/**
 * The scene records of src/Sphere.js and src/Plane.js, the `{x, y, z}` and
 * `{r, g, b}` objects they hold, and the GLSL `Material` struct the shader
 * builds from them. Numbers are reals: floating-point rounding is not modelled.
 */
module Shapes {
  /** A JavaScript `{x, y, z}` object, and the GLSL `vec3` it becomes. */
  datatype Vec3 = Vec3(x: real, y: real, z: real)

  /** A JavaScript `{r, g, b}` object, and the GLSL `vec3` colour it becomes. */
  datatype Rgb = Rgb(r: real, g: real, b: real)

  /** The GLSL `Material` struct: albedo, emission, reflection and refraction weights. */
  datatype Material = Material(color: Rgb, emissive: Rgb, reflection: real, refraction: real)

  /** A `Sphere` record: nothing constrains the radius or the two weights. */
  datatype Sphere = Sphere(position: Vec3, radius: real, color: Rgb, emissive: Rgb,
                           reflectance: real, refractance: real)
  {
    /** The `Material(...)` the scene text builds from this record. */
    function MaterialOf(): Material {
      Material(color, emissive, reflectance, refractance)
    }
  }

  /** A `Plane` record: `orientation` need not be a unit vector, `size` need not be positive. */
  datatype Plane = Plane(position: Vec3, orientation: Vec3, size: real, color: Rgb, emissive: Rgb,
                         reflectance: real, refractance: real)
  {
    /** The `Material(...)` the scene text builds from this record. */
    function MaterialOf(): Material {
      Material(color, emissive, reflectance, refractance)
    }
  }

  /** `new Sphere(...)`: every argument is stored as given, with no validation or clamping. */
  function NewSphere(position: Vec3, radius: real, color: Rgb, emissive: Rgb,
                     reflectance: real, refractance: real): (s: Sphere)
    ensures s.position == position && s.radius == radius
    ensures s.color == color && s.emissive == emissive
    ensures s.reflectance == reflectance && s.refractance == refractance
    ensures s.MaterialOf() == Material(color, emissive, reflectance, refractance)
  {
    Sphere(position, radius, color, emissive, reflectance, refractance)
  }

  /** `new Plane(...)`: every argument is stored as given; the orientation is not normalized. */
  function NewPlane(position: Vec3, orientation: Vec3, size: real, color: Rgb, emissive: Rgb,
                    reflectance: real, refractance: real): (p: Plane)
    ensures p.position == position && p.orientation == orientation && p.size == size
    ensures p.color == color && p.emissive == emissive
    ensures p.reflectance == reflectance && p.refractance == refractance
    ensures p.MaterialOf() == Material(color, emissive, reflectance, refractance)
  {
    Plane(position, orientation, size, color, emissive, reflectance, refractance)
  }

  // GLSL vector arithmetic used by the shader model.

  function Plus(u: Vec3, v: Vec3): Vec3 { Vec3(u.x + v.x, u.y + v.y, u.z + v.z) }
  function Minus(u: Vec3, v: Vec3): Vec3 { Vec3(u.x - v.x, u.y - v.y, u.z - v.z) }
  function Neg(u: Vec3): Vec3 { Vec3(-u.x, -u.y, -u.z) }
  function Scale(u: Vec3, k: real): Vec3 { Vec3(u.x * k, u.y * k, u.z * k) }
  function Dot(u: Vec3, v: Vec3): real { u.x * v.x + u.y * v.y + u.z * v.z }

  /** Component-wise product, GLSL `color *= albedo`. */
  function Modulate(c: Rgb, d: Rgb): Rgb { Rgb(c.r * d.r, c.g * d.g, c.b * d.b) }

  /** Component-wise sum, GLSL `color += emissive`. */
  function Brighten(c: Rgb, d: Rgb): Rgb { Rgb(c.r + d.r, c.g + d.g, c.b + d.b) }
}
