/**
 * The bookkeeping of `PathTracerRenderer` (src/PathTracerRenderer.js): the
 * frame counter `_renderTime`, the `_shaderConstants` table, the background
 * colour and the accumulated scene text. Everything the class does through
 * WebGL (context creation, shader compilation, uniforms, drawing, texture
 * read-back) is outside this model.
 */
module Renderer {
  import opened Shapes
  import opened SceneText

  /** The `_shaderConstants` object. */
  datatype ShaderConstants = ShaderConstants(maxBounces: int, sceneDataCount: nat,
                                             sphereCount: nat, planeCount: nat)

  /** The `camera` object: its fields are written directly by the page script. */
  datatype Camera = Camera(rotation: Vec3, position: Vec3)

  /** The values `getFragmentSource` splices into the shader text. */
  datatype FragmentConstants = FragmentConstants(sphereCount: nat, planeCount: nat, maxBounce: int,
                                                 sceneText: string)

  const INITIAL_SCENE: string := "// wrote by the program \n"

  /** Floats per record in `SCENE_DATA_COUNT`. */
  const SPHERE_DATA: nat := 13
  const PLANE_DATA: nat := 16

  /** `Math.max(1, count)`: the declared GLSL array length is never zero. */
  function ArraySize(count: nat): (n: nat)
    ensures n >= 1 && n >= count
    ensures n == count || n == 1
  {
    if count < 1 then 1 else count
  }


  class PathTracerRenderer {
    var renderTime: nat
    var shaderConstants: ShaderConstants
    var backgroundColor: Rgb
    var scene: string
    var camera: Camera

    /** The bookkeeping part of the constructor. */
    constructor ()
      ensures renderTime == 0
      ensures shaderConstants == ShaderConstants(5, 0, 0, 0)
      ensures backgroundColor == Rgb(0.01, 0.01, 0.01)
      ensures scene == INITIAL_SCENE
      ensures camera == Camera(Vec3(0.0, 0.0, 0.0), Vec3(0.0, 0.0, 0.0))
    {
      renderTime := 0;
      shaderConstants := ShaderConstants(5, 0, 0, 0);
      backgroundColor := Rgb(0.01, 0.01, 0.01);
      scene := INITIAL_SCENE;
      camera := Camera(Vec3(0.0, 0.0, 0.0), Vec3(0.0, 0.0, 0.0));
    }

    /** Restart progressive accumulation; no other field changes. */
    method ResetRenderChain()
      modifies this`renderTime
      ensures renderTime == 0
    {
      renderTime := 0;
    }

    /** The counter side of `render`: one more frame since the last reset. */
    method Render()
      modifies this`renderTime
      ensures renderTime == old(renderTime) + 1
    {
      renderTime := renderTime + 1;
    }

    method SetBackgroundColor(color: Rgb)
      modifies this`backgroundColor, this`renderTime
      ensures backgroundColor == color && renderTime == 0
      ensures shaderConstants == old(shaderConstants) && scene == old(scene) && camera == old(camera)
    {
      backgroundColor := color;
      ResetRenderChain();
    }

    /** Stores `x` as given: no clamping, so a zero or negative budget is accepted. */
    method SetMaxBounces(x: int)
      modifies this`shaderConstants, this`renderTime
      ensures shaderConstants == old(shaderConstants).(maxBounces := x) && renderTime == 0
      ensures backgroundColor == old(backgroundColor) && scene == old(scene) && camera == old(camera)
    {
      shaderConstants := shaderConstants.(maxBounces := x);
      ResetRenderChain();
    }

    /**
     * Appends one line per sphere or plane argument to the scene text (the
     * text already there is kept), recounts both kinds for this call only,
     * and resets the frame counter. `fmt` stands for `toFixed(5)`.
     */
    method AddToScene(data: seq<SceneArg>, fmt: real -> string)
      modifies this`scene, this`shaderConstants, this`renderTime
      ensures scene == old(scene) + Join(SceneLines(data, Writer(fmt)))
      ensures old(scene) <= scene
      ensures shaderConstants.sphereCount == CountSpheres(data)
      ensures shaderConstants.planeCount == CountPlanes(data)
      ensures shaderConstants.sceneDataCount == SPHERE_DATA * CountSpheres(data) + PLANE_DATA * CountPlanes(data)
      ensures shaderConstants.maxBounces == old(shaderConstants.maxBounces)
      ensures renderTime == 0
      ensures backgroundColor == old(backgroundColor) && camera == old(camera)
    {
      var sphereCount, planeCount := WriteScene(data, Writer(fmt));
      shaderConstants := shaderConstants.(sceneDataCount := sphereCount * SPHERE_DATA + planeCount * PLANE_DATA,
                                          sphereCount := sphereCount, planeCount := planeCount);
      ResetRenderChain();
    }

    /**
     * The `forEach` of `addToScene`: appends the line `w` writes for each
     * sphere or plane argument, numbering each kind from 0, and returns both
     * counters.
     */
    method WriteScene(data: seq<SceneArg>, w: LineWriter) returns (sphereCount: nat, planeCount: nat)
      modifies this`scene
      ensures scene == old(scene) + Join(SceneLines(data, w))
      ensures sphereCount == CountSpheres(data) && planeCount == CountPlanes(data)
    {
      sphereCount, planeCount := 0, 0;
      var i := 0;
      while i < |data|
        invariant 0 <= i <= |data|
        invariant sphereCount == CountSpheres(data[..i]) && planeCount == CountPlanes(data[..i])
        invariant scene == old(scene) + Join(SceneLines(data[..i], w))
      {
        ArgStep(old(scene), data, i, w);
        CountSnoc(data, i);
        ghost var next := old(scene) + Join(SceneLines(data[..i + 1], w));
        match data[i] {
          case SphereArg(s) =>
            scene := scene + w.sphere(sphereCount, s);
            sphereCount := sphereCount + 1;
          case PlaneArg(p) =>
            scene := scene + w.plane(planeCount, p);
            planeCount := planeCount + 1;
          case OtherArg(_) =>
        }
        assert scene == next;
        i := i + 1;
      }
      assert data[..i] == data;
    }

    /** The constants `getFragmentSource` writes: array lengths clamped to at least one, the bounce budget as stored. */
    function GetFragmentSource(): (fc: FragmentConstants)
      reads this
      ensures fc.sphereCount >= 1 && fc.planeCount >= 1
      ensures shaderConstants.sphereCount >= 1 ==> fc.sphereCount == shaderConstants.sphereCount
      ensures shaderConstants.planeCount >= 1 ==> fc.planeCount == shaderConstants.planeCount
      ensures shaderConstants.sphereCount == 0 ==> fc.sphereCount == 1
      ensures shaderConstants.planeCount == 0 ==> fc.planeCount == 1
      ensures fc.maxBounce == shaderConstants.maxBounces && fc.sceneText == scene
    {
      FragmentConstants(ArraySize(shaderConstants.sphereCount), ArraySize(shaderConstants.planeCount),
                        shaderConstants.maxBounces, scene)
    }
  }

  // The frame counter over a history of calls. `Reset` stands for
  // `resetRenderChain` and every call that ends with it: `setBackgroundColor`,
  // `setMaxBounces`, `addToScene`, the window-resize handler and the camera
  // controls of test/Main.js.

  datatype Event = RenderFrame | Reset

  /** The counter after one call. */
  function Step(t: nat, e: Event): nat
  {
    match e
    case RenderFrame => t + 1
    case Reset => 0
  }

  /** The counter after a history of calls, starting from `t`. */
  function Replay(t: nat, events: seq<Event>): nat
    decreases |events|
  {
    if events == [] then t else Replay(Step(t, events[0]), events[1..])
  }

  /**
   * The counter equals the number of renders since the last reset, or the
   * starting value plus every render when there was no reset.
   */
  lemma {:induction false} ReplayCountsRenders(t: nat, events: seq<Event>)
    ensures (forall k :: 0 <= k < |events| ==> events[k] == RenderFrame) ==> Replay(t, events) == t + |events|
    ensures forall j :: 0 <= j < |events| && events[j] == Reset &&
                        (forall k :: j < k < |events| ==> events[k] == RenderFrame) ==>
              Replay(t, events) == |events| - 1 - j
    decreases |events|
  {
    if events != [] {
      var rest := events[1..];
      ReplayCountsRenders(Step(t, events[0]), rest);
      forall j | 0 <= j < |events| && events[j] == Reset && (forall k :: j < k < |events| ==> events[k] == RenderFrame)
        ensures Replay(t, events) == |events| - 1 - j
      {
        if j == 0 {
          assert forall k :: 0 <= k < |rest| ==> rest[k] == events[k + 1];
        } else {
          assert rest[j - 1] == Reset;
          assert forall k :: j - 1 < k < |rest| ==> rest[k] == events[k + 1];
        }
      }
      if forall k :: 0 <= k < |events| ==> events[k] == RenderFrame {
        assert events[0] == RenderFrame;
        assert forall k :: 0 <= k < |rest| ==> rest[k] == events[k + 1];
      }
    }
  }
}
