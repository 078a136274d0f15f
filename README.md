# Real-Time-Path-Tracer: a Dafny model of its discrete core

This project models the parts of the WebGL path tracer that are decisions
and bookkeeping rather than floating-point numerics, and proves what they
promise:

- **`PathTracerRenderer` bookkeeping** (`renderer.dfy`, `scene_text.dfy`): the
  frame counter `_renderTime` that drives progressive accumulation (reset by
  every setter and scene change, bumped once per `render`), the
  `_shaderConstants` table, and `addToScene`, which walks its arguments,
  writes one GLSL assignment line per `Sphere` or `Plane`, and derives
  `SPHERE_COUNT`, `PLANE_COUNT` and `SCENE_DATA_COUNT`. The class is a Dafny
  `class` whose methods change its fields in place.
- **The shader's selection and termination rules** (`shader_hit.dfy`,
  `shader_color.dfy`): `rayHit`, a nearest-hit selection over spheres and
  then planes against a running best distance that starts at 1000, and
  `rayColor`, a bounded bounce loop with two early exits. Both are methods
  with loops, proved equal to specification functions, and the properties
  are lemmas about those functions. Reals stand for floats; `sqrt`,
  `normalize` and the scatter direction are uninterpreted function
  parameters.
- **The keyboard state of the demo page** (`keyboard.dfy`): the three
  duplicate-free arrays `KEY_PRESSED`, `KEY_DOWN` and `KEY_UP` of class
  `Input`, changed in place by `add`, `remove` and `removeAll`, and the
  keydown/keyup handlers as transitions over them.
- **The scene records** (`shapes.dfy`): `Sphere` and `Plane` as datatypes.

## Behaviour as written

The code differs from the documented design of the renderer in these
points; the model follows the code.

- `rayColor` returns the running albedo product when it runs out of bounces.
  It does not force the colour to black (`ShaderColor.TracePositive`,
  `ShaderColor.OneBounceKeepsAlbedo`).
- `addToScene` appends to the scene text, so the lines of earlier calls stay
  in the shader. It does not replace the scene. Each call restarts its
  indices at 0 and overwrites both counts.
- No light subpath, next-event estimation or laser primitive exists in the
  code modelled here. The camera path is the whole estimate.
- A sphere that passes the discriminant and epsilon tests sets `hit` even
  when it is not nearer than the current best. A far sphere (t ≥ 1000) can
  therefore report a hit with no recorded point, normal or material
  (`ShaderHit.FarSphereHitRecordsNothing`).
- A plane is clipped to the axis-aligned cube of half-width `size` around
  its position on all three axes, whatever its orientation. It accepts `t`
  down to (but not including) `-EPSILON`.
- `SCENE_DATA_COUNT` is 13 per sphere and 16 per plane. Each line writes 12
  and 15 numbers respectively. The constant is not read anywhere in the code
  modelled here.
- Because the text accumulates while the counts restart, a later
  `addToScene` with fewer spheres or planes leaves `spheres[k]` or
  `planes[k]` lines with `k` past the new array length. GLSL rejects such a
  constant index, so that call throws in `recompileShaders` before its
  `resetRenderChain`. The model states the accumulated text and the new
  counts, and assumes compilation succeeds.

## Model

| member | source | states |
|---|---|---|
| `Shapes.NewSphere` | src/Sphere.js:15-23 | position, radius, colour, emissive, reflectance and refractance are stored as given; nothing requires a positive radius or weights in [0,1] |
| `Shapes.NewPlane` | src/Plane.js:17-26 | position, orientation, size, colour, emissive and both weights are stored as given; the orientation is not normalized and the size need not be positive |
| `SceneText.EntriesCounts` | src/PathTracerRenderer.js:513-543 | keeping only the `Sphere` and `Plane` arguments preserves both counts, and their number is spheres + planes: other classes contribute nothing |
| `SceneText.SceneLinesIndexed` | src/PathTracerRenderer.js:513-543 | one call writes exactly one line per sphere or plane, in argument order; the line of each entry carries as index the number of same-kind entries before it |
| `SceneText.RanksCountUp` | src/PathTracerRenderer.js:508-509 | per kind, indices strictly increase along the arguments and stay below that kind's count, so they run 0,1,2,… from 0 in every call |
| `Renderer.ArraySize` | src/PathTracerRenderer.js:202-203 | the declared GLSL array length is at least 1 and at least the count, and equals the count whenever the count is positive |
| `Renderer.PathTracerRenderer.constructor` | src/PathTracerRenderer.js:49-79 | frame counter 0, `MAX_BOUNCES` 5, all scene counts 0, background (0.01,0.01,0.01), the initial comment line as scene text, camera at the origin with no rotation |
| `Renderer.PathTracerRenderer.ResetRenderChain` | src/PathTracerRenderer.js:649-652 | sets the frame counter to 0 and changes no other field |
| `Renderer.PathTracerRenderer.Render` | src/PathTracerRenderer.js:687 | increments the frame counter by exactly one and changes no other field |
| `Renderer.PathTracerRenderer.SetBackgroundColor` | src/PathTracerRenderer.js:81-85 | stores the colour, resets the frame counter, leaves the constants, scene text and camera unchanged |
| `Renderer.PathTracerRenderer.SetMaxBounces` | src/PathTracerRenderer.js:87-92 | stores `x` in `MAX_BOUNCES` unchanged (no clamping), resets the frame counter, changes nothing else |
| `Renderer.PathTracerRenderer.AddToScene` | src/PathTracerRenderer.js:505-551 | the old scene text stays a prefix and exactly the call's lines, as `Writer(fmt)` writes them, are appended; sphere and plane counts are those of the arguments; `SCENE_DATA_COUNT` = 13·spheres + 16·planes; `MAX_BOUNCES`, background and camera are unchanged; the frame counter is 0 |
| `Renderer.PathTracerRenderer.WriteScene` | src/PathTracerRenderer.js:513-543 | the `forEach` over the arguments appends to the scene exactly the lines the given line writer makes for the arguments, indexed per kind, and returns the number of spheres and of planes among them |
| `Renderer.PathTracerRenderer.GetFragmentSource` | src/PathTracerRenderer.js:202-205 | the shader's array lengths are exactly 1 for an empty kind and equal the stored count otherwise (`Math.max(1, count)`); `MAX_BOUNCE` is the stored budget unchanged; the scene text is spliced in as is |
| `Renderer.ReplayCountsRenders` | src/PathTracerRenderer.js:649-688 | over any history of renders and resets, the counter equals the number of renders since the last reset, or the start value plus all renders when there was none |
| `ShaderHit.RayHit` | src/PathTracerRenderer.js:266-384 | the two loops, with their `continue`s and nested box tests, return exactly the flag and surface of the specification scan |
| `ShaderHit.SphereScanFacts` | src/PathTracerRenderer.js:274-310 | after the sphere loop: the flag is set iff some sphere has delta ≥ 0 and t > EPSILON, at any distance; the best t is ≤ 1000 and ≤ every such sphere's t; when a surface is recorded, it is the point, normalized normal and material of a sphere at exactly the best t with every earlier such sphere strictly farther: only a strictly smaller t replaces the record, so on a tie the first sphere wins |
| `ShaderHit.PlaneScanFacts` | src/PathTracerRenderer.js:312-362 | the plane loop never increases the best t; it newly sets the flag iff some plane with denom > 0, t > -EPSILON and the hit point inside center ± size on x, y and z lies below the incoming best; it either leaves the state untouched or strictly lowers the best t and records the point, normalized normal and material of such a plane at exactly that t, with every earlier such plane strictly farther (a plane at the same t as the recorded hit is not taken) |
| `ShaderHit.HitScanNearest` | src/PathTracerRenderer.js:266-384 | nearest-hit selection: the final best t is at most 1000 and at most every accepted sphere's and plane's t; a surface is recorded iff the best t is below 1000, and it is then either the first sphere at exactly that t, or the first plane at that t when every accepted sphere is strictly farther (a plane tying with a sphere loses) |
| `ShaderHit.HitFlag` | src/PathTracerRenderer.js:300-353 | `hit` is true iff some sphere passes its two tests (at any distance) or some plane passes its tests at t < 1000 |
| `ShaderHit.FarSphereHitRecordsNothing` | src/PathTracerRenderer.js:300-309 | a passing sphere at or beyond 1000, with nothing nearer, yields `hit` true with no recorded point, normal or material |
| `ShaderColor.RayColor` | src/PathTracerRenderer.js:416-450 | the loop with its two `break`s returns exactly the colour and number of `rayHit` calls of the specification trace, starting from white |
| `ShaderColor.TraceBudget` | src/PathTracerRenderer.js:421-426 | at most `MAX_BOUNCE` iterations run, and at least one when the budget is positive; with a zero or negative budget the colour stays white |
| `ShaderColor.FirstMissIsBackground` | src/PathTracerRenderer.js:428-433 | a first ray that misses returns exactly the background colour after one pass |
| `ShaderColor.FirstLightAddsEmission` | src/PathTracerRenderer.js:435-440 | a first hit on an emissive surface returns white plus its emission |
| `ShaderColor.OneBounceKeepsAlbedo` | src/PathTracerRenderer.js:442-449 | with a budget of one, a first non-emissive hit returns that surface's albedo, not black |
| `ShaderColor.HitMaterialInScene` | src/PathTracerRenderer.js:306-355 | the material `rayColor` reads at a bounce is a sphere's or plane's material, or that bounce's uninitialised one |
| `ShaderColor.TraceNonNegative` | src/PathTracerRenderer.js:416-450 | with non-negative background, albedos and emissions, and non-negative colour and emission of the uninitialised material every bounce may read, the returned colour is non-negative |
| `ShaderColor.TracePositive` | src/PathTracerRenderer.js:416-450 | with positive background, albedos and uninitialised albedos, and non-negative emissions (uninitialised ones included), the returned colour is positive whether the path misses, hits a light or exhausts its bounces |
| `Keyboard.IndexOf` | test/Main.js:274-282 | None iff the value is absent; otherwise an index holding the value with no earlier occurrence |
| `Keyboard.HasValue` | test/Main.js:264-272 | true iff some element equals the value |
| `Keyboard.GetValueIndex` | test/Main.js:274-282 | the smallest index holding the value, None (`undefined`) when there is none |
| `Keyboard.AddedKeepsDistinct` | test/Main.js:214-222 | `add` keeps the array duplicate-free, the key is present afterwards, and no other key appears or disappears |
| `Keyboard.RemovedIsWithout` | test/Main.js:229-237 | on a duplicate-free array `remove` equals "all elements but the key, in order": one element fewer when the key was there, the key absent afterwards, no duplicates |
| `Keyboard.RemoveLeavesDuplicate` | test/Main.js:229-237 | without the no-duplicates invariant one `remove` of `k` from `[k, k]` leaves `[k]` |
| `Keyboard.KeyDownEffect` | test/Main.js:286-296 | after keydown the key is pressed; it is down when not a repeat and not down when a repeat; `KEY_UP` is untouched; all arrays stay duplicate-free |
| `Keyboard.KeyUpEffect` | test/Main.js:298-305 | after keyup the key is neither pressed nor down, every other key keeps its state, `KEY_UP` is exactly `[key]`, no duplicates |
| `Keyboard.KeyArray.constructor` | test/Main.js:185-195 | a new array is empty |
| `Keyboard.Input.constructor` | test/Main.js:185-195 | three distinct, empty arrays |
| `Keyboard.Input.GetKeyPress` | test/Main.js:197-199 | true iff the key is in `KEY_PRESSED` |
| `Keyboard.Input.GetKeyDown` | test/Main.js:201-203 | true iff the key is in `KEY_DOWN` |
| `Keyboard.Input.GetKeyUp` | test/Main.js:205-207 | true iff the key is in `KEY_UP` |
| `Keyboard.Input.Add` | test/Main.js:214-222 | returns true and appends iff the key was absent; otherwise returns false and leaves the array unchanged |
| `Keyboard.Input.Remove` | test/Main.js:229-237 | returns true and splices out the element at the first index of the key iff it was present; otherwise returns false and leaves the array unchanged |
| `Keyboard.Input.RemoveAll` | test/Main.js:244-253 | empties the array and returns true iff it was non-empty; an empty array stays empty with false |
| `Keyboard.Input.RemoveFromAllInput` | test/Main.js:255-259 | removes the key from `KEY_DOWN` and `KEY_PRESSED` and empties `KEY_UP` |
| `Keyboard.Input.OnKeyDown` | test/Main.js:286-296 | the three arrays become the keydown transition of their old values |
| `Keyboard.Input.OnKeyUp` | test/Main.js:298-305 | the three arrays become the keyup transition of their old values |

## Left out

- WebGL plumbing is not modelled: `initOpenGL`, `recompileShaders`, `initRenderer`, `clear`, `_loadFrameIntoTexture`, `fillMemory`, the draw and viewport calls of `render`, and `getVertexSource`. These are calls into the browser's GPU interface. Only the `_renderTime++` of `render` is kept.
- Shader compilation can fail and throw, for example when `MAX_BOUNCES` is not an integer. `setMaxBounces` and `addToScene` would then stop before their reset. The model assumes compilation succeeds, and `Renderer.PathTracerRenderer.SetMaxBounces` takes an integer.
- `addToScene` can throw part-way through its `forEach`: on a `null` or `undefined` argument (reading `d.constructor` at src/PathTracerRenderer.js:515), or on a record with a field that has no `toFixed` (lines 517-539). The lines of earlier arguments then stay appended, lines 545-550 never run, so the counts are stale, and the render chain is not reset. The model's arguments are typed `SceneArg` values with real fields, so this path is not modelled.
- `setBackgroundColor` keeps the caller's object by reference (src/PathTracerRenderer.js:83), and `render` reads its `r`, `g` and `b` on every frame (lines 677-679). Mutating that object later changes the background without a reset of the render chain. The model copies an `Rgb` value, so this aliasing is not modelled.
- `toFixed(5)` decimal formatting is the parameter `fmt`. Only the structure of the emitted lines is verified, not the digits.
- `uniform int renderTime` has no precision qualifier in the fragment shader, so it is `mediump int`: only ±2^15 is guaranteed, and most hardware gives 32 bits. The model's counter is unbounded, so overflow of the uniform is not modelled.
- `addToScene` picks records by `d.constructor.name`. The model classifies arguments as `SceneArg` variants, so an unrelated class that happens to be named `Sphere` or `Plane` is not modelled.
- When a count is 0, the shader declares one array entry that no line assigns. Its contents are whatever GLSL initialises it to. `ShaderHit.RayHit` takes the loaded arrays as given.
- Floating-point numerics are not modelled:
  - Schlick `reflectance`, `getScatteredDirection`, `getRay`, the rotation matrices, the `sin`/`fract` random hash, the `averageColor` blend (it weights by `length(previousPixel)`), the `sqrt` gamma step and the rest of `main`;
  - the scatter direction of each bounce is the oracle `scatter`, indexed by the bounce number, which stands for the state of the per-pixel random stream;
  - `sqrt` and `normalize` are uninterpreted;
  - `pow(x, 2.0)` is taken as `x * x`, although GLSL leaves `pow` undefined for negative `x`;
  - `length(emissive) > 0.0` is taken as "emission is not zero", which is exact over reals but ignores underflow.
- The uninitialised `hitPoint`, `hitNormal` and `hitMaterial` of `rayHit` are the oracle `uninit`, one value per bounce, in `rayColor`. GLSL gives them no defined value. `ShaderColor.TraceNonNegative` and `ShaderColor.TracePositive` assume these values are non-negative or positive; without that, a far-sphere hit can make the colour negative.
- The global `rayPass` is modelled only as the pass count that `ShaderColor.RayColor` returns.
- The commented-out volume block in `rayHit` is not modelled. Neither is the unused `volumeDensity` field.
- `Laser` is defined in src/Laser.js, which is not part of this model. No code shown here intersects lasers, traces a light subpath or does next-event estimation.
- Demo-page code in test/Main.js is not modelled: canvas and body setup, the `requestAnimationFrame` loop, the trigonometric camera moves, the mouse and pointer-lock handlers, `FPSMeter` and the scene-building functions. Each camera move there is followed by `resetRenderChain`. In `Renderer.ReplayCountsRenders` such moves are `Reset` events, and so is the window-resize handler of `initRenderer`.
- Keys are strings, which is what `event.key` provides. JavaScript's loose `==` between values of different types is not modelled.
