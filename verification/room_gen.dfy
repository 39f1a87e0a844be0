/**
 * The room generator: the four corners of a `width` by `height` rectangle,
 * each optionally pushed along one axis, joined in order by distorted lines
 * into one closed outline. The probabilities of the configuration decide
 * only which random draws are taken, so they are folded into the oracles:
 * a `VertexOffset` per corner and an `EdgeOracle` per edge.
 */
module RoomGen {
  import opened Points
  import LineGen

  /** The integer part of the source's `RoomGenerator` configuration. */
  datatype RoomGenerator = RoomGenerator(width: nat, height: nat, offsetMin: int, offsetMax: int)

  /** The draws for one corner: leave it, or add `amount` to its x (when `alongX`) or y coordinate. */
  datatype VertexOffset = Unmoved | Moved(alongX: bool, amount: int)

  /** The draws for one edge: the jitter of its points and the elbows of its diagonal steps. */
  datatype EdgeOracle = EdgeOracle(nudge: LineGen.NudgeOracle, coin: LineGen.CoinOracle)

  /**
   * The offsets a run can draw. `gen_range(min, max)` yields a value in the
   * half-open range and panics on an empty one, so when `min >= max` only
   * corners that are left alone are possible.
   */
  predicate ValidOffsets(cfg: RoomGenerator, offsets: seq<VertexOffset>)
  {
    forall k :: 0 <= k < |offsets| && offsets[k].Moved? ==> cfg.offsetMin <= offsets[k].amount < cfg.offsetMax
  }

  /** `w` is `v` with exactly one coordinate moved by an amount in `[lo, hi)`. */
  predicate ShiftedWithin(v: Point, w: Point, lo: int, hi: int)
  {
    (w.y == v.y && lo <= w.x - v.x < hi) || (w.x == v.x && lo <= w.y - v.y < hi)
  }

  /** The rectangle's corners, in the winding order the outline follows. */
  function BaseVertices(cfg: RoomGenerator): (r: seq<Point>)
    ensures |r| == 4 && r[0] == Origin
    ensures r[1] == Point(cfg.width, 0) && r[2] == Point(cfg.width, cfg.height) && r[3] == Point(0, cfg.height)
    ensures forall k :: 0 <= k < 4 ==> 0 <= r[k].x <= cfg.width && 0 <= r[k].y <= cfg.height
    ensures LineGen.Chain(r + [r[0]], LineGen.Rectilinear)
  {
    var r := [Point(0, 0), Point(cfg.width, 0), Point(cfg.width, cfg.height), Point(0, cfg.height)];
    assert r + [r[0]] == [r[0], r[1], r[2], r[3], r[0]];
    r
  }

  function OffsetVertex(cfg: RoomGenerator, v: Point, o: VertexOffset): (w: Point)
    requires o.Moved? ==> cfg.offsetMin <= o.amount < cfg.offsetMax
    ensures o == Unmoved ==> w == v
    ensures o.Moved? ==> ShiftedWithin(v, w, cfg.offsetMin, cfg.offsetMax)
    ensures o.Moved? && o.alongX ==> w.y == v.y
    ensures o.Moved? && !o.alongX ==> w.x == v.x
  {
    match o
    case Unmoved => v
    case Moved(alongX, amount) =>
      if alongX then Point(v.x + amount, v.y) else Point(v.x, v.y + amount)
  }

  /** Moves each vertex by its drawn offset, independently of the others. */
  function ApplyVertexOffset(cfg: RoomGenerator, vertices: seq<Point>, offsets: seq<VertexOffset>): (r: seq<Point>)
    requires |offsets| == |vertices| && ValidOffsets(cfg, offsets)
    ensures |r| == |vertices|
    ensures forall k :: 0 <= k < |r| ==> r[k] == vertices[k] || ShiftedWithin(vertices[k], r[k], cfg.offsetMin, cfg.offsetMax)
    ensures forall k :: 0 <= k < |r| && offsets[k] == Unmoved ==> r[k] == vertices[k]
    ensures forall k :: 0 <= k < |r| && offsets[k].Moved? ==>
      ShiftedWithin(vertices[k], r[k], cfg.offsetMin, cfg.offsetMax)
    ensures forall k :: 0 <= k < |r| && offsets[k].Moved? && offsets[k].alongX ==> r[k].y == vertices[k].y
    ensures forall k :: 0 <= k < |r| && offsets[k].Moved? && !offsets[k].alongX ==> r[k].x == vertices[k].x
  {
    var r := seq(|vertices|, k requires 0 <= k < |vertices| => OffsetVertex(cfg, vertices[k], offsets[k]));
    assert forall k :: 0 <= k < |r| ==> r[k] == OffsetVertex(cfg, vertices[k], offsets[k]);
    r
  }

  /** The four corners after the offsets. */
  function Corners(cfg: RoomGenerator, offsets: seq<VertexOffset>): (v: seq<Point>)
    requires |offsets| == 4 && ValidOffsets(cfg, offsets)
    ensures |v| == 4
    ensures forall k :: 0 <= k < 4 && offsets[k] == Unmoved ==> v[k] == BaseVertices(cfg)[k]
    ensures forall k :: 0 <= k < 4 && offsets[k].Moved? ==>
      ShiftedWithin(BaseVertices(cfg)[k], v[k], cfg.offsetMin, cfg.offsetMax)
  {
    ApplyVertexOffset(cfg, BaseVertices(cfg), offsets)
  }

  /** One edge of the outline, from corner `a` to corner `b`, with the start left out. */
  function Edge(a: Point, b: Point, lerp: LineGen.Lerp, draws: EdgeOracle): (r: seq<Point>)
    ensures LineGen.Path(a, r, b, LineGen.AxisStep)
    ensures a != b ==> b in r
  {
    var r := LineGen.Generate(a, b, lerp, draws.nudge, draws.coin);
    assert a != b ==> r != [] && LineGen.Last(r) == b;
    r
  }

  /**
   * The outline through the four corners `v`: the first corner, then the
   * four edges in order. Each edge leaves out its own start, which is the
   * previous edge's end, so the outline never repeats a corner at a joint.
   */
  function Outline(v: seq<Point>, lerp: LineGen.Lerp, edges: seq<EdgeOracle>): (r: seq<Point>)
    requires |v| == 4 && |edges| == 4
    ensures |r| > 0 && r[0] == v[0] && LineGen.Last(r) == v[0]
    ensures LineGen.Chain(r, LineGen.AxisStep)
    ensures forall k :: 0 <= k < 4 ==> v[k] in r
  {
    var e0 := Edge(v[0], v[1], lerp, edges[0]);
    var e1 := Edge(v[1], v[2], lerp, edges[1]);
    var e2 := Edge(v[2], v[3], lerp, edges[2]);
    var e3 := Edge(v[3], v[0], lerp, edges[3]);
    ClosedLoop(v, e0, e1, e2, e3);
    [v[0]] + (e0 + e1 + e2 + e3)
  }

  /** What closing the loop means for the outline as a sequence. */
  lemma ClosedLoop(v: seq<Point>, e0: seq<Point>, e1: seq<Point>, e2: seq<Point>, e3: seq<Point>)
    requires |v| == 4
    requires LineGen.Path(v[0], e0, v[1], LineGen.AxisStep) && LineGen.Path(v[1], e1, v[2], LineGen.AxisStep)
    requires LineGen.Path(v[2], e2, v[3], LineGen.AxisStep) && LineGen.Path(v[3], e3, v[0], LineGen.AxisStep)
    ensures LineGen.Chain([v[0]] + (e0 + e1 + e2 + e3), LineGen.AxisStep)
    ensures LineGen.Last([v[0]] + (e0 + e1 + e2 + e3)) == v[0]
    ensures forall k :: 0 <= k < 4 ==> v[k] in [v[0]] + (e0 + e1 + e2 + e3)
  {
    FourEdgesClose(v[0], v[1], v[2], v[3], e0, e1, e2, e3, LineGen.AxisStep);
    var r := [v[0]] + (e0 + e1 + e2 + e3);
    if v[1] != v[0] {
      assert e0 != [] && LineGen.Last(e0) == v[1];
      assert e0[|e0| - 1] == r[|e0|];
    }
    if v[2] != v[1] {
      assert e1 != [] && LineGen.Last(e1) == v[2];
      assert e1[|e1| - 1] == r[|e0| + |e1|];
    }
    if v[3] != v[2] {
      assert e2 != [] && LineGen.Last(e2) == v[3];
      assert e2[|e2| - 1] == r[|e0| + |e1| + |e2|];
    }
  }

  /** `RoomGenerator::generate`: offset the rectangle's corners, then join them into an outline. */
  function Generate(cfg: RoomGenerator, lerp: LineGen.Lerp, offsets: seq<VertexOffset>, edges: seq<EdgeOracle>): (r: seq<Point>)
    requires |offsets| == 4 && |edges| == 4 && ValidOffsets(cfg, offsets)
    ensures |r| > 0 && r[0] == Corners(cfg, offsets)[0]
    ensures LineGen.Last(r) == Corners(cfg, offsets)[0]
    ensures LineGen.Chain(r, LineGen.AxisStep)
    ensures forall k :: 0 <= k < 4 ==> Corners(cfg, offsets)[k] in r
  {
    Outline(Corners(cfg, offsets), lerp, edges)
  }

  /** Four walks, each starting where the previous one ends and the last ending at the first's start, form a loop. */
  lemma FourEdgesClose(
    a: Point, b: Point, c: Point, d: Point,
    e0: seq<Point>, e1: seq<Point>, e2: seq<Point>, e3: seq<Point>,
    step: (Point, Point) -> bool)
    requires LineGen.Path(a, e0, b, step) && LineGen.Path(b, e1, c, step)
    requires LineGen.Path(c, e2, d, step) && LineGen.Path(d, e3, a, step)
    ensures LineGen.Path(a, e0 + e1 + e2 + e3, a, step)
  {
    LineGen.PathJoin(a, e0, b, e1, c, step);
    LineGen.PathJoin(a, e0 + e1, c, e2, d, step);
    LineGen.PathJoin(a, e0 + e1 + e2, d, e3, a, step);
  }

  /**
   * With a non-jumping interpolation the outline is a 4-connected closed
   * loop: every step, including the one back to the first corner, moves to
   * an orthogonal neighbour.
   */
  lemma OutlineUnitSteps(v: seq<Point>, lerp: LineGen.Lerp, edges: seq<EdgeOracle>)
    requires |v| == 4 && |edges| == 4 && LineGen.KingLerp(lerp)
    ensures LineGen.Chain(Outline(v, lerp, edges), LineGen.UnitStep)
  {
    forall k | 0 <= k < 4
      ensures LineGen.Path(v[k], Edge(v[k], v[(k + 1) % 4], lerp, edges[k]), v[(k + 1) % 4], LineGen.UnitStep)
    {
      LineGen.GenerateUnitSteps(v[k], v[(k + 1) % 4], lerp, edges[k].nudge, edges[k].coin);
    }
    FourEdgesClose(
      v[0], v[1], v[2], v[3],
      Edge(v[0], v[1], lerp, edges[0]), Edge(v[1], v[2], lerp, edges[1]),
      Edge(v[2], v[3], lerp, edges[2]), Edge(v[3], v[0], lerp, edges[3]),
      LineGen.UnitStep);
  }

  /** The generated room outline is 4-connected whenever the interpolation does not jump. */
  lemma GenerateUnitSteps(cfg: RoomGenerator, lerp: LineGen.Lerp, offsets: seq<VertexOffset>, edges: seq<EdgeOracle>)
    requires |offsets| == 4 && |edges| == 4 && ValidOffsets(cfg, offsets) && LineGen.KingLerp(lerp)
    ensures LineGen.Chain(Generate(cfg, lerp, offsets, edges), LineGen.UnitStep)
  {
    OutlineUnitSteps(Corners(cfg, offsets), lerp, edges);
  }

  // ---------------------------------------------------------------------------
  // Properties

  /** With an empty offset range no corner can have been moved. */
  lemma EmptyRangeKeepsRectangle(cfg: RoomGenerator, offsets: seq<VertexOffset>)
    requires |offsets| == 4 && ValidOffsets(cfg, offsets) && cfg.offsetMin >= cfg.offsetMax
    ensures Corners(cfg, offsets) == BaseVertices(cfg)
  {
    assert forall k :: 0 <= k < 4 ==> offsets[k] == Unmoved;
  }

  /**
   * Without offsets, the room passes through all four rectangle corners: a
   * corollary of `Generate`'s corner clause and `Corners`' unmoved clause.
   */
  lemma UnmovedOutlineVisitsCorners(cfg: RoomGenerator, lerp: LineGen.Lerp, offsets: seq<VertexOffset>, edges: seq<EdgeOracle>)
    requires |offsets| == 4 && |edges| == 4 && ValidOffsets(cfg, offsets)
    requires forall k :: 0 <= k < 4 ==> offsets[k] == Unmoved
    ensures forall k :: 0 <= k < 4 ==> BaseVertices(cfg)[k] in Generate(cfg, lerp, offsets, edges)
  {
    var v := Corners(cfg, offsets);
    assert v == BaseVertices(cfg);
  }
}
