/**
 * Shared vocabulary of both measurement managers: positions, the scene objects a chain
 * of points owns (marker dots, the polyline, the segment labels) and the per-segment
 * computations both managers perform.
 *
 * Vector3.distanceTo is floating-point and is left uninterpreted: every manager is
 * built over a `Distance` function and every threshold and total is stated in terms of it.
 */
module Geometry {

  /** A THREE.Vector3 position, with exact real coordinates. */
  datatype Vec3 = Vec3(x: real, y: real, z: real)

  /** The distance between two positions (Vector3.distanceTo). */
  type Distance = (Vec3, Vec3) -> real

  /** The sphere mesh that marks one captured point, placed at that point. */
  datatype Mesh = Dot(at: Vec3)

  /** A THREE.Line drawn through the given vertices. */
  datatype Line = Polyline(vertices: seq<Vec3>)

  /** A segment label sprite: the distance it shows (in metres) and the unit tag it is formatted in. */
  datatype Label = Label(meters: real, unit: string)

  /** The unit a new label is formatted in: `currentUnit || 'm'` (an unset unit is the empty string). */
  function LabelUnit(currentUnit: string): (u: string)
    ensures u != ""
    ensures currentUnit != "" ==> u == currentUnit
  {
    if currentUnit == "" then "m" else currentUnit
  }

  function Last<T>(s: seq<T>): T
    requires |s| > 0
  {
    s[|s| - 1]
  }

  /** `pop()` on a list: drops the last element, and leaves an empty list empty. */
  function DropLast<T>(s: seq<T>): (r: seq<T>)
    ensures |s| > 0 ==> r + [Last(s)] == s
    ensures |s| == 0 ==> r == []
  {
    if |s| == 0 then s else s[..|s| - 1]
  }

  /** Every point has its own marker dot, in the same order. */
  ghost predicate MarksPoints(meshes: seq<Mesh>, points: seq<Vec3>) {
    |meshes| == |points| && forall i :: 0 <= i < |points| ==> meshes[i] == Dot(points[i])
  }

  /** Popping a point together with its dot keeps every remaining point marked. */
  lemma MarksPointsDropLast(meshes: seq<Mesh>, points: seq<Vec3>)
    requires MarksPoints(meshes, points)
    ensures MarksPoints(DropLast(meshes), DropLast(points))
  {
    if |points| > 0 {
      var ms, ps := meshes[..|meshes| - 1], points[..|points| - 1];
      assert DropLast(meshes) == ms && DropLast(points) == ps;
      forall i | 0 <= i < |ps| ensures ms[i] == Dot(ps[i]) {
        assert ms[i] == meshes[i] && ps[i] == points[i];
      }
    }
  }

  /** Pushing a point together with a dot at it keeps every point marked. */
  lemma MarksPointsAppend(meshes: seq<Mesh>, points: seq<Vec3>, p: Vec3)
    requires MarksPoints(meshes, points)
    ensures MarksPoints(meshes + [Dot(p)], points + [p])
  {
    var ms, ps := meshes + [Dot(p)], points + [p];
    forall i | 0 <= i < |ps| ensures ms[i] == Dot(ps[i]) {
      if i < |points| {
        assert ms[i] == meshes[i] && ps[i] == points[i];
      }
    }
  }

  /** The vertices a chain is drawn through: a closed chain repeats its first point at the end. */
  function DrawPoints(points: seq<Vec3>, closed: bool): seq<Vec3> {
    if closed && |points| > 0 then points + [points[0]] else points
  }

  /** One label per consecutive pair of `pts`, showing that segment's length. */
  function SegmentLabels(dist: Distance, pts: seq<Vec3>, unit: string): (ls: seq<Label>)
    ensures |ls| == if |pts| < 2 then 0 else |pts| - 1
    ensures forall i :: 0 <= i < |ls| ==> ls[i] == Label(dist(pts[i], pts[i + 1]), unit)
    decreases |pts|
  {
    if |pts| < 2 then []
    else SegmentLabels(dist, pts[..|pts| - 1], unit) + [Label(dist(pts[|pts| - 2], pts[|pts| - 1]), unit)]
  }

  /** The sum of the lengths of the consecutive segments of `pts`. */
  function PathLength(dist: Distance, pts: seq<Vec3>): real
    decreases |pts|
  {
    if |pts| < 2 then 0.0
    else PathLength(dist, pts[..|pts| - 1]) + dist(pts[|pts| - 2], pts[|pts| - 1])
  }

  /** The sum of the distances shown by a list of labels. */
  function LabelTotal(ls: seq<Label>): real
    decreases |ls|
  {
    if ls == [] then 0.0 else LabelTotal(ls[..|ls| - 1]) + Last(ls).meters
  }

  /** The term the shoelace formula adds for the edge from `p` to `q`, in the X-Z (floor) plane. */
  function Cross(p: Vec3, q: Vec3): real {
    p.x * q.z - q.x * p.z
  }

  /** The shoelace sum over the first `k` edges of the polygon `pts` (edge i runs to vertex (i+1) mod n). */
  function ShoelaceUpTo(pts: seq<Vec3>, k: nat): real
    requires k <= |pts|
    decreases k
  {
    if k == 0 then 0.0 else ShoelaceUpTo(pts, k - 1) + Cross(pts[k - 1], pts[k % |pts|])
  }

  function Abs(r: real): real {
    if r < 0.0 then -r else r
  }

  /** The area enclosed by the polygon `pts`, projected on the floor. */
  function PolygonArea(pts: seq<Vec3>): (a: real)
    ensures a >= 0.0
  {
    Abs(ShoelaceUpTo(pts, |pts|)) / 2.0
  }

  /** The labels of a chain add up to the length of the chain. */
  lemma {:induction false} LabelsAddUpToPath(dist: Distance, pts: seq<Vec3>, unit: string)
    ensures LabelTotal(SegmentLabels(dist, pts, unit)) == PathLength(dist, pts)
    decreases |pts|
  {
    if |pts| >= 2 {
      var front := SegmentLabels(dist, pts[..|pts| - 1], unit);
      var ls := front + [Label(dist(pts[|pts| - 2], pts[|pts| - 1]), unit)];
      assert ls[..|ls| - 1] == front;
      LabelsAddUpToPath(dist, pts[..|pts| - 1], unit);
    }
  }

  /** Appending a vertex adds exactly the new segment to the path length. */
  lemma PathLengthAppend(dist: Distance, pts: seq<Vec3>, q: Vec3)
    requires |pts| > 0
    ensures PathLength(dist, pts + [q]) == PathLength(dist, pts) + dist(Last(pts), q)
  {
    var ext := pts + [q];
    assert ext[..|ext| - 1] == pts;
  }

  /** With a non-negative distance, a path is never shorter than zero. */
  lemma {:induction false} PathLengthNonNegative(dist: Distance, pts: seq<Vec3>)
    requires forall a, b :: dist(a, b) >= 0.0
    ensures PathLength(dist, pts) >= 0.0
    decreases |pts|
  {
    if |pts| >= 2 {
      PathLengthNonNegative(dist, pts[..|pts| - 1]);
    }
  }

  /** `pts` moved by `dx` along x and `dz` along z, at the same height. */
  function Translated(pts: seq<Vec3>, dx: real, dz: real): (t: seq<Vec3>)
    ensures |t| == |pts|
    ensures forall i :: 0 <= i < |t| ==> t[i] == Vec3(pts[i].x + dx, pts[i].y, pts[i].z + dz)
  {
    seq(|pts|, i requires 0 <= i < |pts| => Vec3(pts[i].x + dx, pts[i].y, pts[i].z + dz))
  }

  /** The part of an edge's cross term that an offset (`dx`, `dz`) contributes at the vertex `p`. */
  function Shift(p: Vec3, dx: real, dz: real): real {
    dx * p.z - dz * p.x
  }

  /** Moving both ends of an edge by the same offset changes its cross term by a difference of the ends alone. */
  lemma CrossTranslated(p: Vec3, q: Vec3, dx: real, dz: real)
    ensures Cross(Vec3(p.x + dx, p.y, p.z + dz), Vec3(q.x + dx, q.y, q.z + dz))
         == Cross(p, q) + Shift(q, dx, dz) - Shift(p, dx, dz)
  {
  }

  /** Over the first `k` edges (short of the closing one), the moved polygon's shoelace sum differs by a telescoped term. */
  lemma {:induction false} ShoelaceTranslated(pts: seq<Vec3>, dx: real, dz: real, k: nat)
    requires k < |pts|
    ensures ShoelaceUpTo(Translated(pts, dx, dz), k)
         == ShoelaceUpTo(pts, k) + Shift(pts[k], dx, dz) - Shift(pts[0], dx, dz)
    decreases k
  {
    if k > 0 {
      var t := Translated(pts, dx, dz);
      ShoelaceTranslated(pts, dx, dz, k - 1);
      ShoelaceStep(pts, k);
      ShoelaceStep(t, k);
      EdgeTranslated(pts, t, dx, dz, k - 1, k);
    }
  }

  /** One more edge, short of the closing one, adds its cross term. */
  lemma ShoelaceStep(pts: seq<Vec3>, k: nat)
    requires 0 < k < |pts|
    ensures ShoelaceUpTo(pts, k) == ShoelaceUpTo(pts, k - 1) + Cross(pts[k - 1], pts[k])
  {
    assert k % |pts| == k;
  }

  /** The cross term of one edge of the moved polygon. */
  lemma EdgeTranslated(pts: seq<Vec3>, t: seq<Vec3>, dx: real, dz: real, i: nat, j: nat)
    requires t == Translated(pts, dx, dz) && i < |pts| && j < |pts|
    ensures Cross(t[i], t[j]) == Cross(pts[i], pts[j]) + Shift(pts[j], dx, dz) - Shift(pts[i], dx, dz)
  {
    CrossTranslated(pts[i], pts[j], dx, dz);
  }

  /** The enclosed area does not depend on where the world origin lies: moving the outline leaves it unchanged. */
  lemma AreaIsTranslationInvariant(pts: seq<Vec3>, dx: real, dz: real)
    ensures PolygonArea(Translated(pts, dx, dz)) == PolygonArea(pts)
  {
    var n := |pts|;
    if n > 0 {
      var t := Translated(pts, dx, dz);
      ShoelaceTranslated(pts, dx, dz, n - 1);
      assert n % n == 0;
      EdgeTranslated(pts, t, dx, dz, n - 1, 0);
      assert ShoelaceUpTo(t, n) == ShoelaceUpTo(pts, n);
    }
  }

  /** An axis-aligned rectangle `w` by `d` on the floor, at any corner and height, encloses `|w * d|`. */
  lemma RectangleArea(x0: real, z0: real, w: real, d: real, h: real)
    ensures PolygonArea([Vec3(x0, h, z0), Vec3(x0 + w, h, z0), Vec3(x0 + w, h, z0 + d), Vec3(x0, h, z0 + d)])
         == Abs(w * d)
  {
    var a, b, c, e := Vec3(x0, h, z0), Vec3(x0 + w, h, z0), Vec3(x0 + w, h, z0 + d), Vec3(x0, h, z0 + d);
    var r := [a, b, c, e];
    assert Cross(a, b) == -(w * z0);
    assert Cross(b, c) == x0 * d + w * d;
    assert Cross(c, e) == w * z0 + w * d;
    assert Cross(e, a) == -(x0 * d);
    assert ShoelaceUpTo(r, 4) == Cross(a, b) + Cross(b, c) + Cross(c, e) + Cross(e, a);
    assert ShoelaceUpTo(r, 4) == 2.0 * (w * d);
  }

  /** The loop of updateLine (and of setUnit, per archived chain) that builds one label per segment. */
  method BuildSegmentLabels(dist: Distance, pts: seq<Vec3>, unit: string) returns (labels: seq<Label>)
    ensures labels == SegmentLabels(dist, pts, unit)
  {
    labels := [];
    if |pts| == 0 {
      return;
    }
    var i := 1;
    while i < |pts|
      invariant 1 <= i <= |pts|
      invariant |labels| == i - 1
      invariant forall k :: 0 <= k < |labels| ==> labels[k] == Label(dist(pts[k], pts[k + 1]), unit)
    {
      labels := labels + [Label(dist(pts[i - 1], pts[i]), unit)];
      i := i + 1;
    }
    ghost var spec := SegmentLabels(dist, pts, unit);
    assert |labels| == |spec|;
    forall k | 0 <= k < |labels|
      ensures labels[k] == spec[k]
    {
      assert spec[k] == Label(dist(pts[k], pts[k + 1]), unit);
    }
  }

  /** The loop of getTotalDistance that adds up the consecutive segments. */
  method SumSegments(dist: Distance, pts: seq<Vec3>) returns (total: real)
    ensures total == PathLength(dist, pts)
  {
    total := 0.0;
    if |pts| == 0 {
      return;
    }
    var i := 1;
    while i < |pts|
      invariant 1 <= i <= |pts|
      invariant total == PathLength(dist, pts[..i])
    {
      assert pts[..i + 1][..i] == pts[..i];
      total := total + dist(pts[i - 1], pts[i]);
      i := i + 1;
    }
    assert pts[..i] == pts;
  }

  /** The loop of getArea: the shoelace sum over every edge of the polygon. */
  method ShoelaceSum(pts: seq<Vec3>) returns (sum: real)
    ensures sum == ShoelaceUpTo(pts, |pts|)
  {
    sum := 0.0;
    var i := 0;
    while i < |pts|
      invariant 0 <= i <= |pts|
      invariant sum == ShoelaceUpTo(pts, i)
    {
      var p1 := pts[i];
      var p2 := pts[(i + 1) % |pts|];
      sum := sum + (p1.x * p2.z - p2.x * p1.z);
      i := i + 1;
    }
  }
}
