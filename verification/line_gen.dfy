/**
 * The distorted-line generator. A straight segment between two points is
 * sampled, its interior points are jittered, gaps the jitter opened are
 * re-bridged with straight sub-segments, and every step that changes both
 * coordinates is split by an elbow point. The random draws are supplied as
 * oracles: a nudge per point index for the jitter and a coin per step index
 * for the elbow choice. The floating-point interpolation of the straight
 * line is supplied as a function `lerp`; only what holds whatever it rounds
 * to is stated about it.
 */
module LineGen {
  import opened Points

  /**
   * `lerp(start, end, i)` is point `i` of the sampled line from `start` to
   * `end`, as the source's `f32` interpolation and rounding produce it.
   */
  type Lerp = (Point, Point, nat) -> Point

  /** For each point index: keep the point, or nudge it by one along one axis. */
  datatype Nudge = Keep | Shift(positive: bool, alongY: bool)

  type NudgeOracle = nat -> Nudge

  /** For each step index: which of the two elbows splits a diagonal step. */
  type CoinOracle = nat -> bool

  function Last<T>(s: seq<T>): T
    requires |s| > 0
  {
    s[|s| - 1]
  }

  // ---------------------------------------------------------------------------
  // Steps and chains of steps

  /** Every consecutive pair of `s` is a `step`. */
  predicate Chain(s: seq<Point>, step: (Point, Point) -> bool)
  {
    forall i :: 0 <= i < |s| - 1 ==> step(s[i], s[i + 1])
  }

  /** A step that changes at most one coordinate. */
  predicate Rectilinear(a: Point, b: Point)
  {
    !Diagonal(a, b)
  }

  /** A step that changes exactly one coordinate. */
  predicate AxisStep(a: Point, b: Point)
  {
    (a.x == b.x) != (a.y == b.y)
  }

  /** A step to one of the four orthogonal neighbours. */
  predicate UnitStep(a: Point, b: Point)
  {
    Abs(a.x - b.x) + Abs(a.y - b.y) == 1
  }

  /** A step to one of the eight surrounding cells, or none at all. */
  predicate Neighbours(a: Point, b: Point)
  {
    Chebyshev(a, b) <= 1
  }

  predicate Moves(a: Point, b: Point)
  {
    a != b
  }

  /** No two consecutive points are equal. */
  predicate NoStutter(s: seq<Point>)
  {
    Chain(s, Moves)
  }

  /**
   * `s` continues a walk standing at `from`: each of its steps, starting
   * with the one from `from` to `s[0]`, is a `step`, and the walk ends at `to`.
   */
  predicate Path(from: Point, s: seq<Point>, to: Point, step: (Point, Point) -> bool)
  {
    Chain([from] + s, step) && Last([from] + s) == to
  }

  /** Dropping the first point of a chain leaves a chain. */
  lemma ChainTail(s: seq<Point>, step: (Point, Point) -> bool)
    requires |s| > 0 && Chain(s, step)
    ensures Chain(s[1..], step)
  {
    forall i | 0 <= i < |s| - 2
      ensures step(s[1..][i], s[1..][i + 1])
    {
      assert s[1..][i] == s[i + 1] && s[1..][i + 1] == s[i + 2];
    }
  }

  /** Extending a chain at its front by one step. */
  lemma ChainCons(x: Point, s: seq<Point>, step: (Point, Point) -> bool)
    requires |s| > 0 && Chain(s, step) && step(x, s[0])
    ensures Chain([x] + s, step)
  {
    ChainJoin([x, s[0]], s[1..], step);
    assert [x] + s == [x, s[0]] + s[1..];
  }

  /** A chain splits at any point into two chains that share the joint. */
  lemma {:induction false} ChainJoin(p: seq<Point>, q: seq<Point>, step: (Point, Point) -> bool)
    requires |p| > 0
    ensures Chain(p + q, step) <==> Chain(p, step) && Chain([Last(p)] + q, step)
  {
    var s := p + q;
    var t := [Last(p)] + q;
    if Chain(s, step) {
      forall i | 0 <= i < |p| - 1
        ensures step(p[i], p[i + 1])
      {
        assert s[i] == p[i] && s[i + 1] == p[i + 1];
      }
      forall i | 0 <= i < |t| - 1
        ensures step(t[i], t[i + 1])
      {
        assert t[i] == s[|p| - 1 + i] && t[i + 1] == s[|p| + i];
      }
    }
    if Chain(p, step) && Chain(t, step) {
      forall i | 0 <= i < |s| - 1
        ensures step(s[i], s[i + 1])
      {
        if i < |p| - 1 {
          assert s[i] == p[i] && s[i + 1] == p[i + 1];
        } else {
          var j := i - (|p| - 1);
          assert s[i] == t[j] && s[i + 1] == t[j + 1];
        }
      }
    }
  }

  /** Walks compose: from `a` to `b`, then on from `b` to `c`. */
  lemma PathJoin(a: Point, x: seq<Point>, b: Point, y: seq<Point>, c: Point, step: (Point, Point) -> bool)
    requires Path(a, x, b, step) && Path(b, y, c, step)
    ensures Path(a, x + y, c, step)
  {
    ChainJoin([a] + x, y, step);
    assert [a] + (x + y) == ([a] + x) + y;
  }

  // ---------------------------------------------------------------------------
  // Stage 1: the straight line

  /**
   * `n + 1` samples for `n = max(|dx|, |dy|)`. The end samples of a proper
   * segment are exact, since `t` is exactly 0 and 1 there and every
   * coordinate and coordinate difference up to 2^24 in magnitude converts to
   * `f32` exactly; the interior and
   * the single sample of a zero-length segment (where `t = 0 / 0`) are
   * whatever the interpolation yields.
   */
  function StraightLine(start: Point, end: Point, lerp: Lerp): (r: seq<Point>)
    ensures |r| == Chebyshev(start, end) + 1
    ensures start != end ==> r[0] == start && Last(r) == end
  {
    ChebyshevZeroIff(start, end);
    var n := Chebyshev(start, end);
    if n == 0 then [lerp(start, end, 0)]
    else
      seq(n + 1, i requires 0 <= i <= n =>
        if i == 0 then start else if i == n then end else lerp(start, end, i))
  }

  /**
   * The interpolation never jumps: consecutive samples of every straight
   * line are neighbours. Rounding `start + (end - start) * i / n` moves each
   * coordinate by at most `|d| / n <= 1` per sample; this is assumed of the
   * floating-point version, not proved, wherever it is used.
   */
  ghost predicate KingLerp(lerp: Lerp)
  {
    forall a, b :: Chain(StraightLine(a, b, lerp), Neighbours)
  }

  /** Moves `|d|` units toward the sign of `d` in steps of one, then stays. */
  function Toward(d: int, i: nat): int
  {
    if d >= 0 then (if i < d then i else d) else (if i < -d then -(i as int) else d)
  }

  /**
   * An interpolation that walks diagonally until one coordinate is done,
   * then straight on; it witnesses that `KingLerp` can be met.
   */
  function GreedyLerp(a: Point, b: Point, i: nat): Point
  {
    Point(a.x + Toward(b.x - a.x, i), a.y + Toward(b.y - a.y, i))
  }

  lemma GreedyLerpIsKing()
    ensures KingLerp(GreedyLerp)
  {
    forall a: Point, b: Point
      ensures Chain(StraightLine(a, b, GreedyLerp), Neighbours)
    {
      var s := StraightLine(a, b, GreedyLerp);
      var n := Chebyshev(a, b);
      if n > 0 {
        forall i | 0 <= i <= n
          ensures s[i] == GreedyLerp(a, b, i)
        {
        }
      }
    }
  }

  // ---------------------------------------------------------------------------
  // Stage 2: distortion

  function Nudged(p: Point, m: Nudge): (q: Point)
    ensures m == Keep ==> q == p
    ensures m != Keep ==> UnitShift(p, q)
  {
    match m
    case Keep => p
    case Shift(positive, alongY) =>
      var offset := if positive then 1 else -1;
      if alongY then Point(p.x, p.y + offset) else Point(p.x + offset, p.y)
  }

  /** `q` is `p` moved by one along exactly one axis. */
  predicate UnitShift(p: Point, q: Point)
  {
    (p.x == q.x && Abs(p.y - q.y) == 1) || (p.y == q.y && Abs(p.x - q.x) == 1)
  }

  /**
   * Nudges each point that differs from both the first and the last point.
   * The comparison is by value, so an interior point that happens to equal
   * an end point stays put too. The source indexes the first point, so the
   * input must not be empty.
   */
  function Distort(points: seq<Point>, nudge: NudgeOracle): (r: seq<Point>)
    requires |points| > 0
    ensures |r| == |points|
    ensures forall i :: 0 <= i < |r| && (points[i] == points[0] || points[i] == Last(points)) ==> r[i] == points[i]
    ensures forall i :: 0 <= i < |r| ==> r[i] == points[i] || UnitShift(points[i], r[i])
    ensures forall i :: 0 <= i < |r| && nudge(i) == Keep ==> r[i] == points[i]
    ensures forall i :: 0 <= i < |r| && points[i] != points[0] && points[i] != Last(points) && nudge(i).Shift? ==>
      UnitShift(points[i], r[i])
  {
    var r := seq(|points|, i requires 0 <= i < |points| => DistortPoint(points[i], points[0], Last(points), nudge(i)));
    assert forall i :: 0 <= i < |r| ==> r[i] == DistortPoint(points[i], points[0], Last(points), nudge(i));
    r
  }

  /** One point of the distortion stage: the end points, by value, are never moved. */
  function DistortPoint(p: Point, first: Point, last: Point, m: Nudge): (q: Point)
    ensures p == first || p == last || m == Keep ==> q == p
    ensures q == p || UnitShift(p, q)
    ensures p != first && p != last && m.Shift? ==> UnitShift(p, q)
  {
    if p != last && p != first then Nudged(p, m) else p
  }

  // ---------------------------------------------------------------------------
  // Stage 3: reconnection

  /** The points a step from `a` to `b` contributes before de-duplication. */
  function Bridge(a: Point, b: Point, lerp: Lerp): (r: seq<Point>)
    ensures |r| >= 2 && r[0] == a && Last(r) == b
    ensures !FarApart(a, b) ==> r == [a, b]
    ensures FarApart(a, b) ==> r == StraightLine(a, b, lerp)
  {
    if FarApart(a, b) then
      FarApartIffNotNeighbours(a, b);
      StraightLine(a, b, lerp)
    else
      [a, b]
  }

  /** The bridges of all consecutive pairs, concatenated. */
  function Bridges(points: seq<Point>, lerp: Lerp): (r: seq<Point>)
    ensures |points| < 2 ==> r == []
    ensures |points| >= 2 ==> |r| >= 2 && r[0] == points[0] && Last(r) == Last(points)
    ensures forall p :: p in points && |points| >= 2 ==> p in r
    decreases |points|
  {
    if |points| < 2 then []
    else Bridge(points[0], points[1], lerp) + Bridges(points[1..], lerp)
  }

  /** `Vec::dedup`: collapses every run of equal consecutive points to one. */
  function Dedup(s: seq<Point>): (r: seq<Point>)
    ensures NoStutter(r)
    ensures |r| <= |s|
    ensures |s| > 0 ==> |r| > 0 && r[0] == s[0] && Last(r) == Last(s)
    ensures |s| == 0 ==> r == []
    ensures forall p :: p in r <==> p in s
    decreases |s|
  {
    if |s| <= 1 then s
    else if s[0] == s[1] then Dedup(s[1..])
    else [s[0]] + Dedup(s[1..])
  }

  /**
   * Re-bridges every pair the distortion pushed apart, then drops repeated
   * points. An input of fewer than two points has no pairs and yields nothing.
   */
  function Connect(points: seq<Point>, lerp: Lerp): (r: seq<Point>)
    ensures |points| < 2 ==> r == []
    ensures |points| >= 2 ==> |r| > 0 && r[0] == points[0] && Last(r) == Last(points)
    ensures NoStutter(r)
    ensures forall p :: p in points && |points| >= 2 ==> p in r
  {
    Dedup(Bridges(points, lerp))
  }

  /** With a non-jumping interpolation, every step of a bridge is to a neighbour. */
  lemma BridgeNeighbourly(a: Point, b: Point, lerp: Lerp)
    requires KingLerp(lerp)
    ensures Chain(Bridge(a, b, lerp), Neighbours)
  {
    if !FarApart(a, b) {
      FarApartIffNotNeighbours(a, b);
    }
  }

  lemma {:induction false} BridgesNeighbourly(points: seq<Point>, lerp: Lerp)
    requires KingLerp(lerp)
    ensures Chain(Bridges(points, lerp), Neighbours)
    decreases |points|
  {
    if |points| >= 2 {
      var b := Bridge(points[0], points[1], lerp);
      var rest := Bridges(points[1..], lerp);
      BridgeNeighbourly(points[0], points[1], lerp);
      BridgesNeighbourly(points[1..], lerp);
      if rest != [] {
        assert Neighbours(Last(b), rest[0]);
        ChainCons(Last(b), rest, Neighbours);
      }
      ChainJoin(b, rest, Neighbours);
    }
  }

  /** Collapsing repeats keeps every kind of step chain intact, since a repeat is no step. */
  lemma {:induction false} DedupKeepsChain(s: seq<Point>, step: (Point, Point) -> bool)
    requires Chain(s, step)
    ensures Chain(Dedup(s), step)
    decreases |s|
  {
    if |s| > 1 {
      ChainTail(s, step);
      DedupKeepsChain(s[1..], step);
      if s[0] != s[1] {
        ChainCons(s[0], Dedup(s[1..]), step);
      }
    }
  }

  /**
   * Reconnection closes every gap: with a non-jumping interpolation, each
   * step of its output is to one of the eight surrounding cells.
   */
  lemma ConnectNeighbourly(points: seq<Point>, lerp: Lerp)
    requires KingLerp(lerp)
    ensures Chain(Connect(points, lerp), Neighbours)
  {
    BridgesNeighbourly(points, lerp);
    DedupKeepsChain(Bridges(points, lerp), Neighbours);
  }

  // ---------------------------------------------------------------------------
  // Stage 4: removing diagonal steps

  /** The corner that splits the step from `from` to `to`, written as the source does. */
  function Elbow(from: Point, to: Point, coin: bool): (r: Point)
    ensures (r.x == from.x || r.x == to.x) && (r.y == from.y || r.y == to.y)
    ensures Diagonal(from, to) ==> !Diagonal(from, r) && !Diagonal(r, to) && r != from && r != to
  {
    var dx := to.x - from.x;
    var dy := to.y - from.y;
    if coin then Point(to.x, to.y - dy) else Point(to.x - dx, to.y)
  }

  /** What one step contributes: the destination, preceded by an elbow when the step is diagonal. */
  function Window(from: Point, to: Point, coin: bool): (r: seq<Point>)
    ensures |r| == if Diagonal(from, to) then 2 else 1
    ensures Last(r) == to
    ensures Chain([from] + r, Rectilinear)
    ensures from != to ==> Chain([from] + r, AxisStep)
    ensures from != to && Neighbours(from, to) ==> Chain([from] + r, UnitStep)
  {
    if to.x - from.x != 0 && to.y - from.y != 0 then [Elbow(from, to, coin), to] else [to]
  }

  /** The number of diagonal steps from index `i` on. */
  function DiagonalsFrom(points: seq<Point>, i: nat): nat
    requires i < |points|
    decreases |points| - i
  {
    if i + 1 == |points| then 0
    else (if Diagonal(points[i], points[i + 1]) then 1 else 0) + DiagonalsFrom(points, i + 1)
  }

  /** The windows of the steps from index `i` on, concatenated. */
  function DediagonalizeFrom(points: seq<Point>, coin: CoinOracle, i: nat): (r: seq<Point>)
    requires i < |points|
    ensures |r| == |points| - 1 - i + DiagonalsFrom(points, i)
    ensures i + 1 < |points| ==> Last(r) == Last(points)
    decreases |points| - i
  {
    if i + 1 == |points| then []
    else Window(points[i], points[i + 1], coin(i)) + DediagonalizeFrom(points, coin, i + 1)
  }

  /** Prefixed with the point it starts from, the output never steps diagonally, and never stands still if the input did not. */
  lemma {:induction false} DediagonalizeFromWalks(points: seq<Point>, coin: CoinOracle, i: nat)
    requires i < |points|
    ensures Chain([points[i]] + DediagonalizeFrom(points, coin, i), Rectilinear)
    ensures NoStutter(points[i..]) ==> Chain([points[i]] + DediagonalizeFrom(points, coin, i), AxisStep)
    ensures NoStutter(points[i..]) && Chain(points[i..], Neighbours) ==>
      Chain([points[i]] + DediagonalizeFrom(points, coin, i), UnitStep)
    decreases |points| - i
  {
    if i + 1 < |points| {
      var w := Window(points[i], points[i + 1], coin(i));
      var rest := DediagonalizeFrom(points, coin, i + 1);
      DediagonalizeFromWalks(points, coin, i + 1);
      ChainJoin([points[i]] + w, rest, Rectilinear);
      assert [points[i]] + (w + rest) == ([points[i]] + w) + rest;
      assert points[i..][0] == points[i] && points[i..][1] == points[i + 1];
      assert points[i..][1..] == points[i + 1..];
      if NoStutter(points[i..]) {
        ChainTail(points[i..], Moves);
        ChainJoin([points[i]] + w, rest, AxisStep);
        if Chain(points[i..], Neighbours) {
          ChainTail(points[i..], Neighbours);
          ChainJoin([points[i]] + w, rest, UnitStep);
        }
      }
    }
  }

  /** Every point after index `i` survives into the output. */
  lemma {:induction false} DediagonalizeFromKeepsPoints(points: seq<Point>, coin: CoinOracle, i: nat)
    requires i < |points|
    ensures forall j :: i < j < |points| ==> points[j] in DediagonalizeFrom(points, coin, i)
    decreases |points| - i
  {
    if i + 1 < |points| {
      DediagonalizeFromKeepsPoints(points, coin, i + 1);
    }
  }

  /** Without diagonal steps nothing is inserted: the output is the input after index `i`. */
  lemma {:induction false} DediagonalizeFromStraight(points: seq<Point>, coin: CoinOracle, i: nat)
    requires i < |points|
    ensures DiagonalsFrom(points, i) == 0 ==> DediagonalizeFrom(points, coin, i) == points[i + 1..]
    decreases |points| - i
  {
    if i + 1 < |points| && DiagonalsFrom(points, i) == 0 {
      DediagonalizeFromStraight(points, coin, i + 1);
      assert points[i + 1..] == [points[i + 1]] + points[i + 2..];
    }
  }

  /**
   * Inserts an elbow into every diagonal step. Like the source's pairwise
   * windows, it emits only the second point of each pair, so the output
   * does not begin with the input's first point.
   */
  function Dediagonalize(points: seq<Point>, coin: CoinOracle): (r: seq<Point>)
    ensures |points| <= 1 ==> r == []
    ensures |points| > 0 ==> |r| == |points| - 1 + DiagonalsFrom(points, 0)
    ensures |points| >= 2 ==> Last(r) == Last(points)
    ensures |points| > 0 ==> Chain([points[0]] + r, Rectilinear)
    ensures |points| > 0 && NoStutter(points) ==> Chain([points[0]] + r, AxisStep)
    ensures |points| > 0 && NoStutter(points) && Chain(points, Neighbours) ==> Chain([points[0]] + r, UnitStep)
    ensures forall j :: 0 < j < |points| ==> points[j] in r
    ensures |points| > 0 && DiagonalsFrom(points, 0) == 0 ==> r == points[1..]
  {
    if |points| == 0 then []
    else
      assert points[0..] == points;
      DediagonalizeFromWalks(points, coin, 0);
      DediagonalizeFromKeepsPoints(points, coin, 0);
      DediagonalizeFromStraight(points, coin, 0);
      DediagonalizeFrom(points, coin, 0)
  }

  // ---------------------------------------------------------------------------
  // The pipeline

  /**
   * `DistortedLineGnerator::generate`: straight line, distortion,
   * reconnection, then diagonal removal. The result does not begin with the
   * start point, though an elbow or a nudged point may revisit it later; a
   * zero-length segment yields no points at all.
   */
  function Generate(start: Point, end: Point, lerp: Lerp, nudge: NudgeOracle, coin: CoinOracle): (r: seq<Point>)
    ensures r == [] <==> start == end
    ensures Path(start, r, end, AxisStep)
    ensures r != [] ==> r[0] != start && Last(r) == end
  {
    var connected := Connect(Distort(StraightLine(start, end, lerp), nudge), lerp);
    ReconnectedEnds(start, end, lerp, nudge);
    var result := Dediagonalize(connected, coin);
    assert start != end ==> [start] + result == [connected[0]] + result;
    result
  }

  /** Stages 1 to 3 leave a stutter-free walk from `start` to `end`, or nothing for a zero-length segment. */
  lemma ReconnectedEnds(start: Point, end: Point, lerp: Lerp, nudge: NudgeOracle)
    ensures start == end ==> Connect(Distort(StraightLine(start, end, lerp), nudge), lerp) == []
    ensures start != end ==>
      var c := Connect(Distort(StraightLine(start, end, lerp), nudge), lerp);
      |c| >= 2 && c[0] == start && Last(c) == end
  {
    var line := StraightLine(start, end, lerp);
    var distorted := Distort(line, nudge);
    if start != end {
      assert distorted[0] == start && Last(distorted) == end;
      var c := Connect(distorted, lerp);
      assert c[0] != Last(c);
    }
  }

  // ---------------------------------------------------------------------------
  // Properties relating the stages

  /** The elbow is the corner of the step's bounding box on the source's chosen side. */
  lemma ElbowIsCorner(from: Point, to: Point, coin: bool)
    ensures coin ==> Elbow(from, to, coin) == Point(to.x, from.y)
    ensures !coin ==> Elbow(from, to, coin) == Point(from.x, to.y)
  {
  }

  /** De-duplication changes nothing in a sequence that has no repeated neighbours. */
  lemma {:induction false} DedupKeepsStutterFree(s: seq<Point>)
    requires NoStutter(s)
    ensures Dedup(s) == s
  {
    if |s| > 1 {
      ChainJoin([s[0]], s[1..], Moves);
      assert [s[0]] + s[1..] == s;
      DedupKeepsStutterFree(s[1..]);
    }
  }

  /**
   * Doubling any point of the input does not change the result: `dedup`
   * removes a point only when it repeats its neighbour. With
   * `DedupKeepsStutterFree` this determines `Dedup` on every input.
   */
  lemma {:induction false} DedupIgnoresRepeat(s: seq<Point>, i: nat)
    requires 0 < i <= |s|
    ensures Dedup(s[..i] + [s[i - 1]] + s[i..]) == Dedup(s)
    decreases |s|
  {
    var t := s[..i] + [s[i - 1]] + s[i..];
    if i == 1 {
      assert t[1..] == s;
    } else {
      var u := s[1..];
      assert t[1..] == u[..i - 1] + [u[i - 2]] + u[i - 1..];
      DedupIgnoresRepeat(u, i - 1);
      assert t[0] == s[0] && t[1] == s[1];
    }
  }

  /** Applying `dedup` twice is the same as once. */
  lemma DedupIdempotent(s: seq<Point>)
    ensures Dedup(Dedup(s)) == Dedup(s)
  {
    DedupKeepsStutterFree(Dedup(s));
  }

  /**
   * Reconnection leaves a walk of neighbours alone: when no pair is farther
   * apart than 1.5 and no point repeats its predecessor, the output is the input.
   */
  lemma {:induction false} ConnectKeepsNeighbourlyWalk(points: seq<Point>, lerp: Lerp)
    requires |points| >= 2 && Chain(points, Neighbours) && NoStutter(points)
    ensures Connect(points, lerp) == points
  {
    assert Neighbours(points[0], points[1]) && points[0] != points[1];
    NeighbourBridge(points, lerp);
    var b := Bridges(points, lerp);
    var tail := points[1..];
    assert Connect(points, lerp) == Dedup(b);
    if |points| == 2 {
      assert b == points;
      DedupKeepsStutterFree(points);
    } else {
      assert Chain(tail, Neighbours) && NoStutter(tail) by {
        ChainTail(points, Neighbours);
        ChainTail(points, Moves);
      }
      ConnectKeepsNeighbourlyWalk(tail, lerp);
      var bt := Bridges(tail, lerp);
      assert Dedup(bt) == tail;
      assert b == [points[0]] + ([bt[0]] + bt);
      DedupPastJoint(points[0], bt);
      assert [points[0]] + tail == points;
    }
  }

  /** Two neighbours at the front are bridged by themselves. */
  lemma NeighbourBridge(points: seq<Point>, lerp: Lerp)
    requires |points| >= 2 && Neighbours(points[0], points[1])
    ensures Bridges(points, lerp) == [points[0], points[1]] + Bridges(points[1..], lerp)
  {
    FarApartIffNotNeighbours(points[0], points[1]);
  }

  /** A joint where the next bridge repeats the previous one's end collapses, and nothing before it does. */
  lemma DedupPastJoint(x: Point, s: seq<Point>)
    requires |s| > 0 && x != s[0]
    ensures Dedup([x] + ([s[0]] + s)) == [x] + Dedup(s)
  {
    var t := [x] + ([s[0]] + s);
    assert t[1..] == [s[0]] + s;
    assert ([s[0]] + s)[1..] == s;
  }

  /**
   * With a non-jumping interpolation the generated line is 4-connected: every
   * step, including the first one from `start`, moves to an orthogonal neighbour.
   */
  lemma GenerateUnitSteps(start: Point, end: Point, lerp: Lerp, nudge: NudgeOracle, coin: CoinOracle)
    requires KingLerp(lerp)
    ensures Path(start, Generate(start, end, lerp, nudge, coin), end, UnitStep)
  {
    var line := StraightLine(start, end, lerp);
    var distorted := Distort(line, nudge);
    var connected := Connect(distorted, lerp);
    ConnectNeighbourly(distorted, lerp);
    if start != end {
      assert connected[0] == start;
      assert [start] + Generate(start, end, lerp, nudge, coin) == [connected[0]] + Dediagonalize(connected, coin);
    }
  }

  /** A segment from a point to itself contributes nothing, whatever the oracles say. */
  lemma GenerateDegenerate(p: Point, lerp: Lerp, nudge: NudgeOracle, coin: CoinOracle)
    ensures Generate(p, p, lerp, nudge, coin) == []
  {
  }
}
