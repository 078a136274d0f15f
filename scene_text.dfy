/**
 * What `addToScene` (src/PathTracerRenderer.js) writes: one GLSL assignment
 * line per `Sphere` or `Plane` argument, in argument order, each kind indexed
 * from 0 by its own counter; arguments of any other class are skipped.
 * Decimal formatting of reals (`toFixed(5)`) is the parameter `fmt`.
 */
module SceneText {
  import opened Shapes

  /** An argument of `addToScene`, classified by the name of its constructor. */
  datatype SceneArg = SphereArg(sphere: Sphere) | PlaneArg(plane: Plane) | OtherArg(className: string)

  /** Number of `Sphere` arguments. */
  function CountSpheres(data: seq<SceneArg>): nat
  {
    if data == [] then 0
    else CountSpheres(data[..|data| - 1]) + (if data[|data| - 1].SphereArg? then 1 else 0)
  }

  /** Number of `Plane` arguments. */
  function CountPlanes(data: seq<SceneArg>): nat
  {
    if data == [] then 0
    else CountPlanes(data[..|data| - 1]) + (if data[|data| - 1].PlaneArg? then 1 else 0)
  }

  /** JavaScript's decimal rendering of a non-negative integer, as in `"spheres[" + k + "]"`. */
  function NatToString(n: nat): string
    decreases n
  {
    if n < 10 then [Digit(n)] else NatToString(n / 10) + [Digit(n % 10)]
  }

  function Digit(d: nat): char
    requires d < 10
  {
    "0123456789"[d]
  }

  function Vec3Text(v: Vec3, fmt: real -> string): string
  {
    "vec3(" + fmt(v.x) + "," + fmt(v.y) + "," + fmt(v.z) + ")"
  }

  function RgbText(c: Rgb, fmt: real -> string): string
  {
    "vec3(" + fmt(c.r) + "," + fmt(c.g) + "," + fmt(c.b) + ")"
  }

  function MaterialText(m: Material, fmt: real -> string): string
  {
    "Material(" + RgbText(m.color, fmt) + ", " + RgbText(m.emissive, fmt) + ", "
      + fmt(m.reflection) + ", " + fmt(m.refraction) + ")"
  }

  /** The line written for the sphere that is the `k`-th sphere of its call. */
  function SphereLine(k: nat, s: Sphere, fmt: real -> string): string
  {
    "spheres[" + NatToString(k) + "] = Sphere(" + Vec3Text(s.position, fmt) + ", " + fmt(s.radius)
      + ", " + MaterialText(s.MaterialOf(), fmt) + ");\n"
  }

  /** The line written for the plane that is the `k`-th plane of its call. */
  function PlaneLine(k: nat, p: Plane, fmt: real -> string): string
  {
    "planes[" + NatToString(k) + "] = Plane(" + Vec3Text(p.position, fmt) + ", "
      + Vec3Text(p.orientation, fmt) + ", " + fmt(p.size) + ", " + MaterialText(p.MaterialOf(), fmt) + ");\n"
  }

  /**
   * How a record becomes its line, given its index within the call. The
   * structure of what one call writes is stated for any writer; `Writer(fmt)`
   * is the one `addToScene` uses.
   */
  datatype LineWriter = LineWriter(sphere: (nat, Sphere) -> string, plane: (nat, Plane) -> string)

  /** The lines of `addToScene`, with `fmt` for `toFixed(5)`. */
  function Writer(fmt: real -> string): LineWriter
  {
    LineWriter((k: nat, s: Sphere) => SphereLine(k, s, fmt), (k: nat, p: Plane) => PlaneLine(k, p, fmt))
  }

  /** The lines one call writes: the last argument's line follows those of the arguments before it. */
  function SceneLines(data: seq<SceneArg>, w: LineWriter): seq<string>
  {
    if data == [] then []
    else
      var prefix := data[..|data| - 1];
      SceneLines(prefix, w) + ArgLines(prefix, data[|data| - 1], w)
  }

  /** The line (if any) written for argument `d` after the arguments `prefix` of the same call. */
  function ArgLines(prefix: seq<SceneArg>, d: SceneArg, w: LineWriter): seq<string>
  {
    match d
    case SphereArg(s) => [w.sphere(CountSpheres(prefix), s)]
    case PlaneArg(p) => [w.plane(CountPlanes(prefix), p)]
    case OtherArg(_) => []
  }

  /** The text of a list of lines, one after the other. */
  function Join(lines: seq<string>): string
  {
    if lines == [] then "" else Join(lines[..|lines| - 1]) + lines[|lines| - 1]
  }

  /** Handling one more argument bumps the counter of its kind. */
  lemma CountSnoc(data: seq<SceneArg>, i: nat)
    requires i < |data|
    ensures CountSpheres(data[..i + 1]) == CountSpheres(data[..i]) + (if data[i].SphereArg? then 1 else 0)
    ensures CountPlanes(data[..i + 1]) == CountPlanes(data[..i]) + (if data[i].PlaneArg? then 1 else 0)
  {
    assert data[..i + 1][..i] == data[..i];
  }

  /**
   * Handling argument `i` appends its line, if any, to whatever text `pre`
   * the lines of the earlier arguments were appended to.
   */
  lemma ArgStep(pre: string, data: seq<SceneArg>, i: nat, w: LineWriter)
    requires i < |data|
    ensures data[i].SphereArg? ==>
              pre + Join(SceneLines(data[..i + 1], w))
                == pre + Join(SceneLines(data[..i], w)) + w.sphere(CountSpheres(data[..i]), data[i].sphere)
    ensures data[i].PlaneArg? ==>
              pre + Join(SceneLines(data[..i + 1], w))
                == pre + Join(SceneLines(data[..i], w)) + w.plane(CountPlanes(data[..i]), data[i].plane)
    ensures data[i].OtherArg? ==> Join(SceneLines(data[..i + 1], w)) == Join(SceneLines(data[..i], w))
  {
    var prefix := data[..i];
    assert data[..i + 1][..i] == prefix;
    var written := SceneLines(prefix, w);
    match data[i] {
      case SphereArg(s) =>
        AppendLine(pre, written, w.sphere(CountSpheres(prefix), s));
      case PlaneArg(p) =>
        AppendLine(pre, written, w.plane(CountPlanes(prefix), p));
      case OtherArg(_) =>
        assert SceneLines(data[..i + 1], w) == written + [];
        assert written + [] == written;
    }
  }

  /** Appending one line to the list appends it to the text. */
  lemma AppendLine(pre: string, written: seq<string>, line: string)
    ensures pre + Join(written + [line]) == pre + Join(written) + line
  {
    assert (written + [line])[..|written|] == written;
  }

  // An independent description of the same lines: keep the spheres and planes
  // in order, and index each by how many of its own kind precede it.

  /** The `Sphere` and `Plane` arguments, in argument order. */
  function Entries(data: seq<SceneArg>): (es: seq<SceneArg>)
    ensures forall j :: 0 <= j < |es| ==> !es[j].OtherArg?
  {
    if data == [] then []
    else Entries(data[..|data| - 1]) + (if data[|data| - 1].OtherArg? then [] else [data[|data| - 1]])
  }

  /** How many entries of the same kind as entry `j` precede it. */
  function Rank(es: seq<SceneArg>, j: nat): nat
    requires j < |es|
  {
    if es[j].SphereArg? then CountSpheres(es[..j]) else CountPlanes(es[..j])
  }

  function EntryLine(e: SceneArg, k: nat, w: LineWriter): string
  {
    match e
    case SphereArg(s) => w.sphere(k, s)
    case PlaneArg(p) => w.plane(k, p)
    case OtherArg(_) => ""
  }

  /** Keeping only the spheres and planes does not change either count. */
  lemma {:induction false} EntriesCounts(data: seq<SceneArg>)
    ensures CountSpheres(Entries(data)) == CountSpheres(data)
    ensures CountPlanes(Entries(data)) == CountPlanes(data)
    ensures |Entries(data)| == CountSpheres(data) + CountPlanes(data)
  {
    if data != [] {
      var prefix, d := data[..|data| - 1], data[|data| - 1];
      EntriesCounts(prefix);
      var es := Entries(data);
      if !d.OtherArg? {
        assert es[..|es| - 1] == Entries(prefix);
      } else {
        assert es == Entries(prefix);
      }
    }
  }

  /**
   * One call writes exactly one line per sphere or plane argument, in
   * argument order, and the line of entry `j` carries as index the number of
   * entries of its kind before it.
   */
  lemma {:induction false} SceneLinesIndexed(data: seq<SceneArg>, w: LineWriter)
    ensures |SceneLines(data, w)| == |Entries(data)| == CountSpheres(data) + CountPlanes(data)
    ensures forall j :: 0 <= j < |Entries(data)| ==>
              SceneLines(data, w)[j] == EntryLine(Entries(data)[j], Rank(Entries(data), j), w)
  {
    EntriesCounts(data);
    if data != [] {
      var prefix, d := data[..|data| - 1], data[|data| - 1];
      SceneLinesIndexed(prefix, w);
      EntriesCounts(prefix);
      var es0, es := Entries(prefix), Entries(data);
      var lines0, lines := SceneLines(prefix, w), SceneLines(data, w);
      forall j | 0 <= j < |es|
        ensures lines[j] == EntryLine(es[j], Rank(es, j), w)
      {
        assert es[..|es0|] == es0;
        if j < |es0| {
          assert es[..j] == es0[..j];
          assert lines[j] == lines0[j];
        } else {
          assert es[..j] == es0;
        }
      }
    }
  }

  /** A count never shrinks as the prefix grows. */
  lemma {:induction false} CountsMonotone(s: seq<SceneArg>, a: nat, b: nat)
    requires a <= b <= |s|
    ensures CountSpheres(s[..a]) <= CountSpheres(s[..b])
    ensures CountPlanes(s[..a]) <= CountPlanes(s[..b])
  {
    if a < b {
      CountsMonotone(s, a, b - 1);
      assert s[..b][..b - 1] == s[..b - 1];
    }
  }

  /**
   * The indices of one kind count up from 0: they strictly increase along the
   * entries and stay below that kind's count, so the `k` spheres of a call are
   * written as `spheres[0]` … `spheres[k-1]`, and likewise for planes.
   */
  lemma RanksCountUp(data: seq<SceneArg>)
    ensures forall j :: 0 <= j < |Entries(data)| && Entries(data)[j].SphereArg? ==>
              Rank(Entries(data), j) < CountSpheres(data)
    ensures forall j :: 0 <= j < |Entries(data)| && Entries(data)[j].PlaneArg? ==>
              Rank(Entries(data), j) < CountPlanes(data)
    ensures forall i, j :: 0 <= i < j < |Entries(data)| && Entries(data)[i].SphereArg? == Entries(data)[j].SphereArg? ==>
              Rank(Entries(data), i) < Rank(Entries(data), j)
  {
    var es := Entries(data);
    EntriesCounts(data);
    assert es[..|es|] == es;
    forall j | 0 <= j < |es|
      ensures es[j].SphereArg? ==> Rank(es, j) < CountSpheres(data)
      ensures es[j].PlaneArg? ==> Rank(es, j) < CountPlanes(data)
    {
      RankBelow(es, j, |es|);
    }
    forall i, j | 0 <= i < j < |es| && es[i].SphereArg? == es[j].SphereArg?
      ensures Rank(es, i) < Rank(es, j)
    {
      RankBelow(es, i, j);
    }
  }

  /** The rank of entry `j` is below the count of its kind in any longer prefix. */
  lemma RankBelow(es: seq<SceneArg>, j: nat, b: nat)
    requires j < b <= |es| && !es[j].OtherArg?
    ensures es[j].SphereArg? ==> Rank(es, j) < CountSpheres(es[..b])
    ensures es[j].PlaneArg? ==> Rank(es, j) < CountPlanes(es[..b])
  {
    CountSnoc(es, j);
    CountsMonotone(es, j + 1, b);
  }
}
