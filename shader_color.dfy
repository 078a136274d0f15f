/**
 * The bounce loop of the GLSL function `rayColor`
 * (src/PathTracerRenderer.js): start from white, stop on the first miss
 * (times the background colour) or the first emissive hit (plus its
 * emission), otherwise multiply by the albedo and scatter, for at most
 * `MAX_BOUNCE` iterations. Running out of bounces returns the product built
 * so far; it is not replaced by black.
 */
module ShaderColor {
  import opened Shapes
  import opened ShaderHit

  /** The spheres and planes loaded into the shader, and the background uniforms. */
  datatype Scene = Scene(spheres: seq<Sphere>, planes: seq<Plane>, background: Rgb)

  /**
   * What the model leaves abstract: the numerics of `rayHit`; the direction
   * `getScatteredDirection` returns at bounce `i` for an incoming direction,
   * normal, the two weights and the relative index of refraction (it draws
   * from the per-pixel random stream, whose state is a function of the pixel,
   * the frame and the bounce); and the values of the uninitialised `Hit`
   * fields when the `rayHit` call of bounce `i` flags a hit without recording
   * one (GLSL leaves them undefined, so each call may see different ones).
   */
  datatype Oracles = Oracles(num: Numerics, scatter: (nat, Vec3, Vec3, real, real, real) -> Vec3, uninit: nat -> Surface)

  const WHITE: Rgb := Rgb(1.0, 1.0, 1.0)
  const BLACK: Rgb := Rgb(0.0, 0.0, 0.0)
  /** The index ratio `rayColor` passes to `getScatteredDirection`. */
  const RELATIVE_IOR: real := 0.5

  /** `length(emissive) > 0.0`: some channel of the emission is non-zero. */
  predicate IsEmissive(m: Material)
  {
    m.emissive != BLACK
  }

  /** What `rayHit` returns for `ray` in this scene. */
  function FindHit(ray: Ray, sc: Scene, or: Oracles): Hit
  {
    var st := HitScan(ray, sc.spheres, sc.planes, or.num);
    Hit(st.hit, st.surface)
  }

  /** The surface fields `rayColor` reads from the hit of bounce `i`. */
  function SurfaceOf(h: Hit, i: nat, or: Oracles): Surface
  {
    h.surface.GetOr(or.uninit(i))
  }

  /** The ray of the next bounce: from the hit point along the scattered direction. */
  function NextRay(i: nat, ray: Ray, s: Surface, or: Oracles): Ray
  {
    Ray(s.point, or.scatter(i, ray.direction, s.normal, s.material.reflection, s.material.refraction, RELATIVE_IOR))
  }

  /** The colour `rayColor` returns and how many times it called `rayHit` (the final `rayPass`). */
  datatype Traced = Traced(color: Rgb, passes: nat)

  /** The loop from iteration `i` with running colour `color`. */
  function Trace(sc: Scene, or: Oracles, ray: Ray, i: nat, maxBounce: int, color: Rgb): Traced
    decreases maxBounce - i
  {
    if i >= maxBounce then Traced(color, i)
    else
      var h := FindHit(ray, sc, or);
      if !h.hit then Traced(Modulate(color, sc.background), i + 1)
      else
        var s := SurfaceOf(h, i, or);
        if IsEmissive(s.material) then Traced(Brighten(color, s.material.emissive), i + 1)
        else Trace(sc, or, NextRay(i, ray, s, or), i + 1, maxBounce, Modulate(color, s.material.color))
  }

  /** `rayColor` with `MAX_BOUNCE` = `maxBounce`; `passes` is the number of `rayHit` calls. */
  method RayColor(ray: Ray, sc: Scene, or: Oracles, maxBounce: int) returns (color: Rgb, passes: nat)
    ensures Traced(color, passes) == Trace(sc, or, ray, 0, maxBounce, WHITE)
  {
    color := WHITE;
    passes := 0;
    var r := ray;
    var i: nat := 0;
    while i < maxBounce
      invariant passes == i
      invariant Trace(sc, or, ray, 0, maxBounce, WHITE) == Trace(sc, or, r, i, maxBounce, color)
      decreases maxBounce - i
    {
      var h := RayHit(r, sc.spheres, sc.planes, or.num);
      passes := i + 1;
      if !h.hit {
        color := Modulate(color, sc.background);
        return;
      }
      var s := SurfaceOf(h, i, or);
      if IsEmissive(s.material) {
        color := Brighten(color, s.material.emissive);
        return;
      }
      color := Modulate(color, s.material.color);
      r := NextRay(i, r, s, or);
      i := i + 1;
    }
  }

  /**
   * The loop runs at most `maxBounce` iterations and at least one when the
   * budget allows one; with no budget left the running colour is returned as is.
   */
  lemma {:induction false} TraceBudget(sc: Scene, or: Oracles, ray: Ray, i: nat, maxBounce: int, color: Rgb)
    ensures i >= maxBounce ==> Trace(sc, or, ray, i, maxBounce, color) == Traced(color, i)
    ensures i < maxBounce ==> i + 1 <= Trace(sc, or, ray, i, maxBounce, color).passes <= maxBounce
    decreases maxBounce - i
  {
    if i < maxBounce {
      var h := FindHit(ray, sc, or);
      if h.hit && !IsEmissive(SurfaceOf(h, i, or).material) {
        var s := SurfaceOf(h, i, or);
        TraceBudget(sc, or, NextRay(i, ray, s, or), i + 1, maxBounce, Modulate(color, s.material.color));
      }
    }
  }

  /** A first ray that misses returns exactly the background colour. */
  lemma FirstMissIsBackground(sc: Scene, or: Oracles, ray: Ray, maxBounce: int)
    requires maxBounce >= 1 && !FindHit(ray, sc, or).hit
    ensures Trace(sc, or, ray, 0, maxBounce, WHITE) == Traced(sc.background, 1)
  {
  }

  /** A first hit on an emissive surface returns white plus its emission. */
  lemma FirstLightAddsEmission(sc: Scene, or: Oracles, ray: Ray, maxBounce: int)
    requires maxBounce >= 1 && FindHit(ray, sc, or).hit
    requires IsEmissive(SurfaceOf(FindHit(ray, sc, or), 0, or).material)
    ensures Trace(sc, or, ray, 0, maxBounce, WHITE).color == Brighten(WHITE, SurfaceOf(FindHit(ray, sc, or), 0, or).material.emissive)
  {
  }

  /**
   * With a budget of one bounce, a first hit on a non-emissive surface
   * returns that surface's albedo, not black.
   */
  lemma OneBounceKeepsAlbedo(sc: Scene, or: Oracles, ray: Ray)
    requires FindHit(ray, sc, or).hit && !IsEmissive(SurfaceOf(FindHit(ray, sc, or), 0, or).material)
    ensures Trace(sc, or, ray, 0, 1, WHITE) == Traced(SurfaceOf(FindHit(ray, sc, or), 0, or).material.color, 1)
  {
  }

  /** The material read at bounce `b` is that of a sphere or plane of the scene, or that bounce's uninitialised one. */
  lemma HitMaterialInScene(ray: Ray, sc: Scene, or: Oracles, b: nat)
    ensures var m := SurfaceOf(FindHit(ray, sc, or), b, or).material;
      || m == or.uninit(b).material
      || (exists i :: 0 <= i < |sc.spheres| && m == sc.spheres[i].MaterialOf())
      || (exists j :: 0 <= j < |sc.planes| && m == sc.planes[j].MaterialOf())
  {
    HitScanNearest(ray, sc.spheres, sc.planes, or.num);
  }

  predicate NonNegative(c: Rgb) { c.r >= 0.0 && c.g >= 0.0 && c.b >= 0.0 }
  predicate Positive(c: Rgb) { c.r > 0.0 && c.g > 0.0 && c.b > 0.0 }

  /**
   * Every colour the loop can multiply or add is non-negative, including the
   * undefined material a far-sphere hit leaves behind.
   */
  ghost predicate NonNegativeScene(sc: Scene, or: Oracles)
  {
    && NonNegative(sc.background)
    && (forall b: nat :: NonNegative(or.uninit(b).material.color) && NonNegative(or.uninit(b).material.emissive))
    && (forall i :: 0 <= i < |sc.spheres| ==> NonNegative(sc.spheres[i].color) && NonNegative(sc.spheres[i].emissive))
    && (forall j :: 0 <= j < |sc.planes| ==> NonNegative(sc.planes[j].color) && NonNegative(sc.planes[j].emissive))
  }

  /**
   * Every factor the loop can multiply by is positive and every emission
   * non-negative, including the undefined material a far-sphere hit leaves behind.
   */
  ghost predicate PositiveScene(sc: Scene, or: Oracles)
  {
    && Positive(sc.background)
    && (forall b: nat :: Positive(or.uninit(b).material.color) && NonNegative(or.uninit(b).material.emissive))
    && (forall i :: 0 <= i < |sc.spheres| ==> Positive(sc.spheres[i].color) && NonNegative(sc.spheres[i].emissive))
    && (forall j :: 0 <= j < |sc.planes| ==> Positive(sc.planes[j].color) && NonNegative(sc.planes[j].emissive))
  }

  /**
   * Energy is never negative: from a non-negative colour, when the background,
   * every albedo and emission and every uninitialised material are
   * non-negative, the result is non-negative. The last assumption is needed: a
   * far-sphere hit reads the undefined material.
   */
  lemma {:induction false} TraceNonNegative(sc: Scene, or: Oracles, ray: Ray, i: nat, maxBounce: int, color: Rgb)
    requires NonNegativeScene(sc, or) && NonNegative(color)
    ensures NonNegative(Trace(sc, or, ray, i, maxBounce, color).color)
    decreases maxBounce - i
  {
    if i < maxBounce {
      var h := FindHit(ray, sc, or);
      if h.hit {
        var s := SurfaceOf(h, i, or);
        HitMaterialInScene(ray, sc, or, i);
        assert NonNegative(s.material.color) && NonNegative(s.material.emissive);
        if !IsEmissive(s.material) {
          TraceNonNegative(sc, or, NextRay(i, ray, s, or), i + 1, maxBounce, Modulate(color, s.material.color));
        }
      }
    }
  }

  /**
   * No path is forced to black: when the background and every albedo,
   * including every uninitialised one, are positive and every emission is
   * non-negative, the result stays positive whether the path misses, reaches
   * a light or exhausts its bounces.
   */
  lemma {:induction false} TracePositive(sc: Scene, or: Oracles, ray: Ray, i: nat, maxBounce: int, color: Rgb)
    requires PositiveScene(sc, or) && Positive(color)
    ensures Positive(Trace(sc, or, ray, i, maxBounce, color).color)
    decreases maxBounce - i
  {
    if i < maxBounce {
      var h := FindHit(ray, sc, or);
      if h.hit {
        var s := SurfaceOf(h, i, or);
        HitMaterialInScene(ray, sc, or, i);
        assert Positive(s.material.color) && NonNegative(s.material.emissive);
        if !IsEmissive(s.material) {
          TracePositive(sc, or, NextRay(i, ray, s, or), i + 1, maxBounce, Modulate(color, s.material.color));
        }
      }
    }
  }
}
