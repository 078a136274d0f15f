/**
 * The nearest-hit selection of the GLSL function `rayHit`
 * (src/PathTracerRenderer.js): every sphere, then every plane, against a
 * running best distance that starts at 1000. Square roots and normalisation
 * are floating-point primitives whose values the selection rules never
 * inspect; they are carried as the uninterpreted functions of `Numerics`.
 */
module ShaderHit {
  import opened Wrappers
  import opened Shapes

  datatype Ray = Ray(origin: Vec3, direction: Vec3)

  /** Where a ray stops: hit point, surface normal and material. */
  datatype Surface = Surface(point: Vec3, normal: Vec3, material: Material)

  /**
   * The GLSL `Hit` struct. `surface` is `None` when no primitive was recorded:
   * the shader then returns its uninitialised locals.
   */
  datatype Hit = Hit(hit: bool, surface: Option<Surface>)

  /** The loop state of `rayHit`: the flag, the best distance and the recorded surface. */
  datatype Scan = Scan(hit: bool, hitT: real, surface: Option<Surface>)

  /** `sqrt` and `normalize`, left uninterpreted. */
  datatype Numerics = Numerics(sqrt: real -> real, normalize: Vec3 -> Vec3)

  const EPSILON: real := 0.000001
  /** The initial best distance. */
  const NO_HIT_T: real := 1000.0
  const START: Scan := Scan(false, NO_HIT_T, None)

  /** `rayAt`: the point at distance `t` along the ray. */
  function RayAt(ray: Ray, t: real): Vec3
  {
    Plus(ray.origin, Scale(ray.direction, t))
  }

  // Spheres: half the linear coefficient, the discriminant and the nearer root.

  function SphereB(ray: Ray, s: Sphere): real
  {
    2.0 * Dot(ray.direction, Minus(ray.origin, s.position))
  }

  function SphereDelta(ray: Ray, s: Sphere): real
  {
    var d := Minus(ray.origin, s.position);
    var c := Dot(d, d) - s.radius * s.radius;
    SphereB(ray, s) * SphereB(ray, s) - 4.0 * c
  }

  function SphereT(ray: Ray, s: Sphere, num: Numerics): real
  {
    (-SphereB(ray, s) - num.sqrt(SphereDelta(ray, s))) / 2.0
  }

  /** A sphere the loop does not skip: real roots, and the nearer one beyond EPSILON. */
  predicate SphereCandidate(ray: Ray, s: Sphere, num: Numerics)
  {
    SphereDelta(ray, s) >= 0.0 && SphereT(ray, s, num) > EPSILON
  }

  function SphereSurface(ray: Ray, s: Sphere, num: Numerics): Surface
  {
    var p := RayAt(ray, SphereT(ray, s, num));
    Surface(p, num.normalize(Minus(p, s.position)), s.MaterialOf())
  }

  /** One sphere iteration: a candidate always sets the flag, and replaces the record only when strictly nearer. */
  function SphereStep(st: Scan, ray: Ray, s: Sphere, num: Numerics): Scan
  {
    if !SphereCandidate(ray, s, num) then st
    else if SphereT(ray, s, num) < st.hitT then Scan(true, SphereT(ray, s, num), Some(SphereSurface(ray, s, num)))
    else st.(hit := true)
  }

  // Planes: an infinite plane clipped to the axis-aligned cube of half-width
  // `size` around its position, whatever its orientation.

  function PlaneNormal(p: Plane, num: Numerics): Vec3
  {
    num.normalize(p.orientation)
  }

  function PlaneDenom(ray: Ray, p: Plane, num: Numerics): real
  {
    Dot(Neg(PlaneNormal(p, num)), ray.direction)
  }

  function PlaneT(ray: Ray, p: Plane, num: Numerics): real
    requires PlaneDenom(ray, p, num) > 0.0
  {
    Dot(Minus(p.position, ray.origin), Neg(PlaneNormal(p, num))) / PlaneDenom(ray, p, num)
  }

  /** Within `c ± size` on each of x, y and z independently (bounds included). */
  predicate WithinBox(q: Vec3, c: Vec3, size: real)
  {
    && c.x - size <= q.x <= c.x + size
    && c.y - size <= q.y <= c.y + size
    && c.z - size <= q.z <= c.z + size
  }

  /** A plane that faces the ray, is not behind it by EPSILON or more, and is hit inside its box. */
  predicate PlaneCandidate(ray: Ray, p: Plane, num: Numerics)
  {
    && PlaneDenom(ray, p, num) > 0.0
    && PlaneT(ray, p, num) > -EPSILON
    && WithinBox(RayAt(ray, PlaneT(ray, p, num)), p.position, p.size)
  }

  function PlaneSurface(ray: Ray, p: Plane, num: Numerics): Surface
    requires PlaneDenom(ray, p, num) > 0.0
  {
    Surface(RayAt(ray, PlaneT(ray, p, num)), PlaneNormal(p, num), p.MaterialOf())
  }

  /** One plane iteration: a candidate strictly nearer than the best replaces it and sets the flag. */
  function PlaneStep(st: Scan, ray: Ray, p: Plane, num: Numerics): Scan
  {
    if PlaneCandidate(ray, p, num) && PlaneT(ray, p, num) < st.hitT
    then Scan(true, PlaneT(ray, p, num), Some(PlaneSurface(ray, p, num)))
    else st
  }

  /** The state after the sphere loop over `spheres`. */
  function SphereScan(ray: Ray, spheres: seq<Sphere>, num: Numerics): Scan
  {
    if spheres == [] then START
    else SphereStep(SphereScan(ray, spheres[..|spheres| - 1], num), ray, spheres[|spheres| - 1], num)
  }

  /** The state after the plane loop over `planes`, from `st`. */
  function PlaneScan(st: Scan, ray: Ray, planes: seq<Plane>, num: Numerics): Scan
  {
    if planes == [] then st
    else PlaneStep(PlaneScan(st, ray, planes[..|planes| - 1], num), ray, planes[|planes| - 1], num)
  }

  /** The state at the end of `rayHit`. */
  function HitScan(ray: Ray, spheres: seq<Sphere>, planes: seq<Plane>, num: Numerics): Scan
  {
    PlaneScan(SphereScan(ray, spheres, num), ray, planes, num)
  }

  /** The two loops of `rayHit`, with their early `continue`s. */
  method RayHit(ray: Ray, spheres: seq<Sphere>, planes: seq<Plane>, num: Numerics) returns (result: Hit)
    ensures result == Hit(HitScan(ray, spheres, planes, num).hit, HitScan(ray, spheres, planes, num).surface)
  {
    var hit := false;
    var hitT := NO_HIT_T;
    var surface: Option<Surface> := None;

    var i := 0;
    while i < |spheres|
      invariant 0 <= i <= |spheres|
      invariant Scan(hit, hitT, surface) == SphereScan(ray, spheres[..i], num)
    {
      assert spheres[..i + 1][..i] == spheres[..i];
      var s := spheres[i];
      var distanceFromCenter := Minus(ray.origin, s.position);
      var b := 2.0 * Dot(ray.direction, distanceFromCenter);
      var c := Dot(distanceFromCenter, distanceFromCenter) - s.radius * s.radius;
      var delta := b * b - 4.0 * c;
      assert b == SphereB(ray, s) && delta == SphereDelta(ray, s);
      if delta < 0.0 {
        i := i + 1;
        continue;
      }
      var t := (-b - num.sqrt(delta)) / 2.0;
      assert t == SphereT(ray, s, num);
      if t <= EPSILON {
        i := i + 1;
        continue;
      }
      hit := true;
      if t < hitT {
        hitT := t;
        var point := RayAt(ray, t);
        surface := Some(Surface(point, num.normalize(Minus(point, s.position)), s.MaterialOf()));
      }
      i := i + 1;
    }
    assert spheres[..i] == spheres;

    var j := 0;
    while j < |planes|
      invariant 0 <= j <= |planes|
      invariant Scan(hit, hitT, surface) == PlaneScan(SphereScan(ray, spheres, num), ray, planes[..j], num)
    {
      assert planes[..j + 1][..j] == planes[..j];
      var p := planes[j];
      var normal := num.normalize(p.orientation);
      var denom := Dot(Neg(normal), ray.direction);
      assert normal == PlaneNormal(p, num) && denom == PlaneDenom(ray, p, num);
      if denom <= 0.0 {
        j := j + 1;
        continue;
      }
      var t := Dot(Minus(p.position, ray.origin), Neg(normal)) / denom;
      assert t == PlaneT(ray, p, num);
      if t <= -EPSILON {
        j := j + 1;
        continue;
      }
      if t < hitT {
        var point := RayAt(ray, t);
        var comp := p.position;
        if point.x <= comp.x + p.size && point.x >= comp.x - p.size {
          if point.y <= comp.y + p.size && point.y >= comp.y - p.size {
            if point.z <= comp.z + p.size && point.z >= comp.z - p.size {
              hit := true;
              hitT := t;
              surface := Some(Surface(point, num.normalize(p.orientation), p.MaterialOf()));
            }
          }
        }
      }
      j := j + 1;
    }
    assert planes[..j] == planes;
    result := Hit(hit, surface);
  }

  /**
   * What every state of the scan satisfies: the best distance starts at 1000
   * and only decreases, a surface is recorded exactly when it is below 1000,
   * and a recorded surface implies the flag.
   */
  predicate Consistent(st: Scan)
  {
    && st.hitT <= NO_HIT_T
    && (st.surface.Some? <==> st.hitT < NO_HIT_T)
    && (st.surface.Some? ==> st.hit)
  }

  /**
   * Sphere `i` is the one recorded in `st`: a candidate at exactly the best
   * distance, with every earlier candidate strictly farther (a tie keeps the
   * earlier sphere, since only a strictly nearer one replaces the record).
   */
  predicate RecordsSphere(st: Scan, ray: Ray, spheres: seq<Sphere>, num: Numerics, i: int)
  {
    && 0 <= i < |spheres| && SphereCandidate(ray, spheres[i], num)
    && st.hitT == SphereT(ray, spheres[i], num)
    && st.surface == Some(SphereSurface(ray, spheres[i], num))
    && forall k :: 0 <= k < i && SphereCandidate(ray, spheres[k], num) ==> SphereT(ray, spheres[k], num) > st.hitT
  }

  /** Plane `j` is the one recorded in `st`, every earlier candidate plane being strictly farther. */
  predicate RecordsPlane(st: Scan, ray: Ray, planes: seq<Plane>, num: Numerics, j: int)
  {
    && 0 <= j < |planes| && PlaneCandidate(ray, planes[j], num)
    && st.hitT == PlaneT(ray, planes[j], num)
    && st.surface == Some(PlaneSurface(ray, planes[j], num))
    && forall k :: 0 <= k < j && PlaneCandidate(ray, planes[k], num) ==> PlaneT(ray, planes[k], num) > st.hitT
  }

  /**
   * After the sphere loop: the flag is set iff some sphere is a candidate
   * (however far), the best distance is at most every candidate's, and a
   * recorded surface is that of the first candidate at exactly the best distance.
   */
  lemma {:induction false} SphereScanFacts(ray: Ray, spheres: seq<Sphere>, num: Numerics)
    ensures Consistent(SphereScan(ray, spheres, num))
    ensures SphereScan(ray, spheres, num).hit <==>
              exists i :: 0 <= i < |spheres| && SphereCandidate(ray, spheres[i], num)
    ensures forall i :: 0 <= i < |spheres| && SphereCandidate(ray, spheres[i], num) ==>
              SphereScan(ray, spheres, num).hitT <= SphereT(ray, spheres[i], num)
    ensures SphereScan(ray, spheres, num).surface.Some? ==>
              exists i :: RecordsSphere(SphereScan(ray, spheres, num), ray, spheres, num, i)
  {
    if spheres != [] {
      var prefix, s := spheres[..|spheres| - 1], spheres[|spheres| - 1];
      SphereScanFacts(ray, prefix, num);
      var n := |prefix|;
      assert forall i :: 0 <= i < n ==> spheres[i] == prefix[i];
      var st0 := SphereScan(ray, prefix, num);
      var st := SphereScan(ray, spheres, num);
      if st.hit && !st0.hit {
        assert SphereCandidate(ray, spheres[n], num);
      }
      if st.surface.Some? {
        if SphereCandidate(ray, s, num) && SphereT(ray, s, num) < st0.hitT {
          assert RecordsSphere(st, ray, spheres, num, n);
        } else {
          var i :| RecordsSphere(st0, ray, prefix, num, i);
          assert RecordsSphere(st, ray, spheres, num, i);
        }
      }
    }
  }

  /**
   * The plane loop from a consistent state: the best distance never grows,
   * the flag is newly set iff some candidate plane lies below the incoming
   * best distance, the result is at most every candidate plane's distance,
   * and the state is either untouched or records the first candidate plane
   * at the best distance, which is then strictly below the incoming one.
   */
  lemma {:induction false} PlaneScanFacts(st0: Scan, ray: Ray, planes: seq<Plane>, num: Numerics)
    requires Consistent(st0)
    ensures Consistent(PlaneScan(st0, ray, planes, num))
    ensures PlaneScan(st0, ray, planes, num).hitT <= st0.hitT
    ensures PlaneScan(st0, ray, planes, num).hit <==>
              st0.hit || exists j :: 0 <= j < |planes| && PlaneCandidate(ray, planes[j], num)
                                     && PlaneT(ray, planes[j], num) < st0.hitT
    ensures forall j :: 0 <= j < |planes| && PlaneCandidate(ray, planes[j], num) ==>
              PlaneScan(st0, ray, planes, num).hitT <= PlaneT(ray, planes[j], num)
    ensures PlaneScan(st0, ray, planes, num) == st0 ||
              (PlaneScan(st0, ray, planes, num).hitT < st0.hitT
               && exists j :: RecordsPlane(PlaneScan(st0, ray, planes, num), ray, planes, num, j))
  {
    if planes != [] {
      var prefix, p := planes[..|planes| - 1], planes[|planes| - 1];
      PlaneScanFacts(st0, ray, prefix, num);
      var n := |prefix|;
      assert forall j :: 0 <= j < n ==> planes[j] == prefix[j];
      var mid := PlaneScan(st0, ray, prefix, num);
      var st := PlaneScan(st0, ray, planes, num);
      if PlaneCandidate(ray, p, num) && PlaneT(ray, p, num) < st0.hitT && !mid.hit {
        assert mid.hitT == NO_HIT_T;
      }
      if st != mid {
        assert RecordsPlane(st, ray, planes, num, n);
      } else if mid != st0 {
        var j :| RecordsPlane(mid, ray, prefix, num, j);
        assert RecordsPlane(st, ray, planes, num, j);
      }
      if st.hit && !st0.hit && !mid.hit {
        assert PlaneCandidate(ray, planes[n], num) && PlaneT(ray, planes[n], num) < st0.hitT;
      }
    }
  }

  /**
   * Nearest-hit selection: the final best distance is at most 1000 and at
   * most the distance of every candidate sphere and plane; a surface is
   * recorded exactly when it is below 1000, and it is then the surface of the
   * first candidate sphere at that distance, or else of the first candidate
   * plane at it, and then every candidate sphere is strictly farther: on a
   * tie a sphere wins over a plane and an earlier primitive over a later one.
   */
  lemma HitScanNearest(ray: Ray, spheres: seq<Sphere>, planes: seq<Plane>, num: Numerics)
    ensures HitScan(ray, spheres, planes, num).hitT <= NO_HIT_T
    ensures HitScan(ray, spheres, planes, num).surface.None? <==> HitScan(ray, spheres, planes, num).hitT == NO_HIT_T
    ensures forall i :: 0 <= i < |spheres| && SphereCandidate(ray, spheres[i], num) ==>
              HitScan(ray, spheres, planes, num).hitT <= SphereT(ray, spheres[i], num)
    ensures forall j :: 0 <= j < |planes| && PlaneCandidate(ray, planes[j], num) ==>
              HitScan(ray, spheres, planes, num).hitT <= PlaneT(ray, planes[j], num)
    ensures HitScan(ray, spheres, planes, num).surface.Some? ==>
              (exists i :: RecordsSphere(HitScan(ray, spheres, planes, num), ray, spheres, num, i))
              || ((exists j :: RecordsPlane(HitScan(ray, spheres, planes, num), ray, planes, num, j))
                  && forall i :: 0 <= i < |spheres| && SphereCandidate(ray, spheres[i], num) ==>
                       SphereT(ray, spheres[i], num) > HitScan(ray, spheres, planes, num).hitT)
  {
    SphereScanFacts(ray, spheres, num);
    PlaneScanFacts(SphereScan(ray, spheres, num), ray, planes, num);
  }

  /**
   * The returned flag: set iff some sphere is a candidate at any distance,
   * or some candidate plane lies below 1000.
   */
  lemma HitFlag(ray: Ray, spheres: seq<Sphere>, planes: seq<Plane>, num: Numerics)
    ensures HitScan(ray, spheres, planes, num).hit <==>
              (exists i :: 0 <= i < |spheres| && SphereCandidate(ray, spheres[i], num))
              || (exists j :: 0 <= j < |planes| && PlaneCandidate(ray, planes[j], num)
                              && PlaneT(ray, planes[j], num) < NO_HIT_T)
  {
    var st0 := SphereScan(ray, spheres, num);
    SphereScanFacts(ray, spheres, num);
    PlaneScanFacts(st0, ray, planes, num);
    if !st0.hit {
      assert st0.hitT == NO_HIT_T;
    }
  }

  /**
   * A sphere at or beyond the initial best distance still sets the flag
   * without recording anything: with no nearer primitive, `rayHit` reports a
   * hit whose point, normal and material were never assigned.
   */
  lemma FarSphereHitRecordsNothing(ray: Ray, spheres: seq<Sphere>, planes: seq<Plane>, num: Numerics, k: nat)
    requires k < |spheres| && SphereCandidate(ray, spheres[k], num)
    requires forall i :: 0 <= i < |spheres| && SphereCandidate(ray, spheres[i], num) ==>
               SphereT(ray, spheres[i], num) >= NO_HIT_T
    requires forall j :: 0 <= j < |planes| && PlaneCandidate(ray, planes[j], num) ==>
               PlaneT(ray, planes[j], num) >= NO_HIT_T
    ensures HitScan(ray, spheres, planes, num).hit
    ensures HitScan(ray, spheres, planes, num).surface.None?
  {
    HitFlag(ray, spheres, planes, num);
    HitScanNearest(ray, spheres, planes, num);
  }
}
