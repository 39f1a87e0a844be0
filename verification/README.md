# Room outline generator: a Dafny model

This project models the shape-generation core of a small procedural room
generator written in Rust. It has four parts:

- **Point** (`point.dfy`, module `Points`): an integer point with
  component-wise subtraction and a distance. The source's distance is an
  `f32` square root, but it is only ever compared against 1.5. The model
  keeps the exact squared distance, and `FarApart` states the comparison as
  `SqDist > 2`.
- **Grid** (`grid.dfy`, module `Grids`): a flat row-major `seq<char>` with a
  stored width. The height is derived as `len / width`. `get`/`set` accept a
  coordinate iff `y * width + x < len`. The column is never checked against
  the width, so an `x` past the end of a row aliases into the next row. The
  text dump writes each width-sized chunk followed by `\n`. `Set` returns the
  new grid together with the success flag instead of mutating in place.
- **Distorted line** (`line_gen.dfy`, module `LineGen`): a four-stage
  pipeline. Stage 1 samples a straight line, stage 2 jitters its interior
  points (`Distort`), stage 3 re-bridges pairs pushed more than 1.5 apart and
  drops repeats (`Connect`), and stage 4 splits every diagonal step with an
  elbow (`Dediagonalize`). As in the source, stage 4 emits only the second
  point of each pair, so a generated line does not begin with its own start.
  An elbow or a nudged point may still revisit the start later in the line.
- **Room outline** (`room_gen.dfy`, module `RoomGen`): the rectangle
  `(0,0) (w,0) (w,h) (0,h)`. Each corner may be shifted on one axis. The
  outline is the first corner followed by four distorted edges.

Randomness is passed in as oracles:

- a `Nudge` per point index for stage 2;
- a coin per step index for the elbow choice in stage 4;
- a `VertexOffset` per corner.

The probability fields (`distortion_chance`, `vertex_offset_chance`) only
decide which draws are taken, so they are folded into the oracles. The
floating-point interpolation of the straight line is a parameter
`lerp: (Point, Point, nat) -> Point`. The end samples of a proper segment
are exact whenever every coordinate and per-axis difference is at most 2^24
in magnitude (coordinates up to 2^23 suffice): `t` is exactly 0 and 1 there,
and such integers convert to `f32` exactly. The model fixes them. The
interior samples are whatever `lerp` yields.

Main results:

- `LineGen.Generate` always yields a walk from `start` to `end` in which
  every step changes exactly one coordinate. It is empty iff `start == end`.
- `RoomGen.Generate` yields a closed outline: it starts and ends at the
  first (offset) corner, passes through all four offset corners, and never
  steps diagonally or stands still.
- If the interpolation never jumps (`KingLerp`), every step of a generated
  line is to an orthogonal neighbour (`LineGen.GenerateUnitSteps`). The room
  outline is then a 4-connected loop (`RoomGen.GenerateUnitSteps`).
  `GreedyLerp` shows that such an interpolation exists.

Behaviour of the code worth noting:

- `get`/`set` do not reject `x >= width` when the index is still in range.
  The call aliases into the next row (`Grids.AliasingExample`).
- A zero-length segment yields no points at all, not the single point.
  Reconnection of a one-point line has no pairs (`LineGen.GenerateDegenerate`).
- A generated line does not begin with its start point; the room outline
  supplies the first corner itself.
- `Grid::new` takes no fill character; it always fills with `#`.

## Model

| member | source | states |
|---|---|---|
| Points.SqDistSymmetric | src/point.rs:13-17 | the distance of `a` to `b` equals that of `b` to `a` |
| Points.SqDistIsLengthOfDifference | src/point.rs:13-28 | the distance of `a`, `b` equals the distance of `a - b` from the origin |
| Points.SubSelf | src/point.rs:23-28 | `a - a` is the origin |
| Points.SubAntisymmetric | src/point.rs:23-28 | `b - a` negates both components of `a - b` |
| Points.Sub | src/point.rs:23-28 | `a - b` is the point that gives back `a` when `b` is added to it coordinate-wise |
| Points.SqDist | src/point.rs:13-17 | the squared distance, the quantity under the source's square root, is zero iff the points are equal |
| Points.FarApart | src/line_gen.rs:74-75 | decides `distance > 1.5` on the squared distance; `Points.FarApartIffNotNeighbours` characterises it |
| Points.Chebyshev | src/line_gen.rs:90 | `max(abs dx, abs dy)`: at least each coordinate's absolute difference and equal to one of them |
| Points.ChebyshevZeroIff | src/line_gen.rs:90 | the straight line's step count `max(abs dx, abs dy)` is zero iff the endpoints coincide |
| Points.FarApartIffNotNeighbours | src/line_gen.rs:74-75 | `distance > 1.5` holds iff some coordinate differs by at least two, i.e. the points are not king-move neighbours |
| Points.DistanceExamples | src/point.rs:35-41 | the test pairs have squared distances 1, 1, 2 and 13 |
| Points.DiagonalNeighbourIsClose | src/point.rs:39 | the diagonal neighbours `(1,1)`, `(2,2)` are not more than 1.5 apart |
| Points.DistantPairIsFar | src/point.rs:40 | `(0,0)` and `(2,3)` are more than 1.5 apart |
| Grids.New | src/grid.rs:10-15 | a new grid has the given width and `width * height` tiles, all `#` |
| Grids.NewDimensions | src/grid.rs:10-15 | for a positive width, a new grid is well formed and reports the width and height it was built with |
| Grids.CordToPos | src/grid.rs:42-49 | a coordinate yields `Some(y * width + x)` iff that index is below the buffer length, else `None` |
| Grids.InRowCoordinateAccepted | src/grid.rs:42-49 | for a column below the width, the coordinate is accepted iff its row is below the height |
| Grids.ColumnWrapsIntoNextRow | src/grid.rs:42-49 | a column at or past the width addresses the same index as that column less one width in the next row |
| Grids.IndexHasUniqueCoordinate | src/grid.rs:42-49 | every buffer index is addressed by exactly one coordinate whose column is below the width |
| Grids.Get | src/grid.rs:17-22 | `get` returns the tile at the addressed index when the coordinate is accepted, and `None` otherwise |
| Grids.Set | src/grid.rs:24-32 | `set` succeeds iff the coordinate is accepted; then only the addressed tile changes, otherwise nothing changes; width and length are kept |
| Grids.GetAfterSet | src/grid.rs:17-32 | after an accepted `set`, `get` at the same coordinate returns the new tile; after a rejected one it returns `None` |
| Grids.GetAfterSetElsewhere | src/grid.rs:17-32 | `set` leaves `get` unchanged at every coordinate addressing a different index |
| Grids.SetKeepsDimensions | src/grid.rs:24-40 | `set` keeps `width()`, `height()` and well-formedness |
| Grids.Width | src/grid.rs:34-36 | `width()` is the stored width; `Grids.NewDimensions` and `Grids.SetKeepsDimensions` relate it to `new` and `set` |
| Grids.Height | src/grid.rs:38-40 | `height()` is the number of whole rows: `height * width <= len < (height + 1) * width` |
| Grids.Render | src/grid.rs:52-59 | the dump is empty iff the buffer is, and otherwise ends with a newline; its layout is stated by `Grids.RowsLayout` |
| Grids.Rows | src/grid.rs:54-57 | the chunked dump is empty iff its input is, and a non-empty one ends with a newline |
| Grids.RowsCellAt | src/grid.rs:52-59 | in any buffer holding at least `r + 1` whole rows, line `r` of the dump holds row `r`'s tiles and then a newline |
| Grids.RowsCell | src/grid.rs:52-59 | line `r` of the dump holds row `r`'s tiles in column order at positions `r * (width + 1) + c`, with a newline at column `width` |
| Grids.RowsLayout | src/grid.rs:52-59 | the dump of `height` whole rows has `height * (width + 1)` characters laid out as row tiles then a newline per line |
| Grids.RenderLength | src/grid.rs:52-59 | the dump of a well-formed grid has `height * (width + 1)` characters |
| Grids.NewGridDump | src/grid.rs:66-69 | a new 2-by-3 grid dumps as `"##\n##\n##\n"` |
| Grids.SetChangesDump | src/grid.rs:71-77 | after `set(1, 2, 'x')` the 2-by-3 grid dumps as `"##\n##\n#x\n"` and `get(1, 2)` is `x` |
| Grids.SetReportsSuccess | src/grid.rs:79-86 | on a 1-by-1 grid `set(1, 0)` fails and changes nothing; a following `set(0, 0)` on that same grid succeeds and changes the dump |
| Grids.DimensionsExample | src/grid.rs:88-93 | a new 5-by-8 grid reports width 5 and height 8 |
| Grids.AliasingExample | src/grid.rs:42-49 | on a 2-by-3 grid `set(2, 0)` succeeds and writes the cell `get(0, 1)` reads |
| LineGen.StraightLine | src/line_gen.rs:88-103 | the straight line has `max(abs dx, abs dy) + 1` points, starting at `start` and ending at `end` when they differ |
| LineGen.GreedyLerpIsKing | src/line_gen.rs:88-103 | some interpolation meets the no-jump hypothesis used for the connectivity results |
| LineGen.Nudged | src/line_gen.rs:58-63 | a kept point is unchanged; a nudged point moves by exactly one along exactly one axis |
| LineGen.DistortPoint | src/line_gen.rs:55-66 | a point equal to the first or last point, or with no nudge drawn, is unchanged; any other point with a drawn nudge moves by exactly one unit on one axis |
| LineGen.Distort | src/line_gen.rs:49-68 | distortion keeps the length, never moves a point equal by value to the first or last one or one without a drawn nudge, and moves every other point with a drawn nudge by exactly one unit along one axis |
| LineGen.Bridge | src/line_gen.rs:74-79 | a pair not more than 1.5 apart is kept as `[a, b]`; a farther pair is replaced by the straight line between them; either way it runs from `a` to `b` |
| LineGen.Bridges | src/line_gen.rs:70-83 | the concatenated bridges start at the first input point, end at the last, and contain every input point; fewer than two points give nothing |
| LineGen.Dedup | src/line_gen.rs:84 | `dedup` leaves no two equal neighbours, keeps the first and last point and the set of points, and never grows |
| LineGen.DedupKeepsStutterFree | src/line_gen.rs:84 | `dedup` is the identity on a sequence without equal neighbours |
| LineGen.DedupIgnoresRepeat | src/line_gen.rs:84 | doubling any point of the input leaves the `dedup` result unchanged: only repeats of a neighbour are removed, and order is kept |
| LineGen.DedupIdempotent | src/line_gen.rs:84 | applying `dedup` twice equals applying it once |
| LineGen.DedupKeepsChain | src/line_gen.rs:84 | `dedup` preserves every property that holds of all consecutive pairs |
| LineGen.NeighbourBridge | src/line_gen.rs:74-79 | a pair of neighbours at the front of the input is bridged by the pair itself |
| LineGen.DedupPastJoint | src/line_gen.rs:80-84 | where the next bridge repeats the previous end, `dedup` drops that one repeat and keeps a distinct point before it |
| LineGen.Connect | src/line_gen.rs:70-86 | reconnection of two or more points starts with the first input point, ends with the last, contains all of them and has no equal neighbours; fewer than two points give nothing |
| LineGen.ConnectKeepsNeighbourlyWalk | src/line_gen.rs:70-86 | a walk of distinct neighbours comes out of reconnection unchanged |
| LineGen.BridgeNeighbourly | src/line_gen.rs:74-79 | under the no-jump hypothesis every step of a bridge is to one of the eight surrounding cells |
| LineGen.BridgesNeighbourly | src/line_gen.rs:70-83 | under the no-jump hypothesis every step of the concatenated bridges is to a surrounding cell |
| LineGen.ConnectNeighbourly | src/line_gen.rs:70-86 | under the no-jump hypothesis reconnection closes every gap: each output step is to a surrounding cell |
| LineGen.Elbow | src/line_gen.rs:33-38 | the elbow takes each coordinate from one end of the step; for a diagonal step it differs from both ends and splits the step into two axis-parallel steps |
| LineGen.ElbowIsCorner | src/line_gen.rs:30-38 | the inserted elbow is `(to.x, from.y)` on one coin side and `(from.x, to.y)` on the other |
| LineGen.Window | src/line_gen.rs:29-42 | one step contributes its destination, preceded by an elbow iff it is diagonal, and the resulting steps never change both coordinates |
| LineGen.DediagonalizeFrom | src/line_gen.rs:24-47 | the output has one point per step plus one per diagonal step and ends with the input's last point |
| LineGen.DediagonalizeFromWalks | src/line_gen.rs:24-47 | prefixed with its start, the output never steps diagonally; it moves on every step if the input did, and by unit steps if the input moved only to surrounding cells |
| LineGen.DediagonalizeFromKeepsPoints | src/line_gen.rs:24-47 | every input point after the first appears in the output |
| LineGen.DediagonalizeFromStraight | src/line_gen.rs:24-47 | without diagonal steps the output is the input minus its first point |
| LineGen.Dediagonalize | src/line_gen.rs:24-47 | the output omits the first point, has `(n - 1) + diagonals` points, ends with the last input point, contains every later input point, equals `input[1..]` when no step is diagonal, and prefixed with the first point never steps diagonally |
| LineGen.ReconnectedEnds | src/line_gen.rs:18-20 | after straight line, distortion and reconnection, a proper segment gives at least two points from `start` to `end`, and a zero-length one gives none |
| LineGen.Generate | src/line_gen.rs:17-22 | the generated line is empty iff `start == end`; otherwise its first point is not `start`, it ends with `end`, and every step from `start` on changes exactly one coordinate |
| LineGen.GenerateUnitSteps | src/line_gen.rs:17-22 | under the no-jump hypothesis every step of the generated line, from `start` on, is to an orthogonal neighbour |
| LineGen.GenerateDegenerate | src/line_gen.rs:17-22 | a segment from a point to itself yields no points, whatever the oracles draw |
| RoomGen.BaseVertices | src/room_gen.rs:19-24 | the corners are `(0,0)`, `(w,0)`, `(w,h)`, `(0,h)` in that order, inside `[0, w] x [0, h]`, each joined to the next (cyclically) by an axis-parallel side |
| RoomGen.OffsetVertex | src/room_gen.rs:38-48 | an undrawn corner is kept; a drawn one has exactly the drawn coordinate shifted by an amount in `[min, max)` and the other kept |
| RoomGen.Corners | src/room_gen.rs:19-25 | four corners, each the rectangle's own corner when undrawn and shifted within `[min, max)` on one axis when drawn |
| RoomGen.ApplyVertexOffset | src/room_gen.rs:34-50 | the same number of vertices comes back; each undrawn vertex is unchanged and each drawn one is shifted on its drawn axis only, by an amount in `[min, max)` |
| RoomGen.EmptyRangeKeepsRectangle | src/room_gen.rs:39-40 | when `min >= max` no offset can be drawn, so the corners are the rectangle's |
| RoomGen.Edge | src/room_gen.rs:27-30 | each edge walks from its corner to the next by single-axis steps and contains the next corner when the two differ |
| RoomGen.FourEdgesClose | src/room_gen.rs:26-30 | four walks chained corner to corner and back form one closed walk |
| RoomGen.ClosedLoop | src/room_gen.rs:26-30 | the concatenated outline steps on one axis throughout, ends at the first corner, and contains all four corners |
| RoomGen.Outline | src/room_gen.rs:26-31 | the outline starts and ends at the first corner, every step changes exactly one coordinate, and all four corners appear in it |
| RoomGen.Generate | src/room_gen.rs:17-32 | the room outline starts and ends at the first offset corner, never steps diagonally or stands still, and passes through all four offset corners |
| RoomGen.OutlineUnitSteps | src/room_gen.rs:26-31 | under the no-jump hypothesis the outline is a 4-connected closed loop |
| RoomGen.GenerateUnitSteps | src/room_gen.rs:17-32 | under the no-jump hypothesis the generated room outline is a 4-connected closed loop |
| RoomGen.UnmovedOutlineVisitsCorners | src/room_gen.rs:17-32 | with no corner moved, the outline passes through all four rectangle corners (a corollary of `RoomGen.Generate` and `RoomGen.Corners`) |

## Left out

- `src/main.rs`: console printing and command-line wiring. It calls `Grid::new_with_fill`, `fill`, `count` and `clone`, which `src/grid.rs` does not define. Its test also builds a `RoomGenerator` without `vertex_offset_min`. Flood fill, grid line-connect and a room/bounding-box type are not part of this model because the grid source does not contain them.
- LineGen.StraightLine: the interior samples come from the `f32` interpolation and `round()`. They are the opaque parameter `lerp`, so only the count and the exact end samples are stated. The single sample of a zero-length segment (`t = 0 / 0`) is opaque too. It never reaches the output, because a one-point line has no pairs to reconnect.
- The `allow_diagonal == false` branch of `stright_line` is dead code: every caller passes `true`.
- LineGen.GenerateUnitSteps: its no-jump hypothesis `KingLerp` is assumed of the floating-point interpolation, not proved about it.
- Points.FarApartIffNotNeighbours: `Point::distance` computes an `f32` square root. The model uses the exact squared distance, and `sqrt(s) > 1.5` iff `s > 2` for integer `s`. Rounding of very large squared distances in `f32` is not modelled.
- The probability comparisons against `distortion_chance` and `vertex_offset_chance` are replaced by oracle values. So is `rand::thread_rng` and the order in which draws are taken from it.
- Integer width: `i32` and `usize` arithmetic (`y * width + x`, `usize as i32` casts, coordinate offsets) is modelled with unbounded integers, so overflow and wrap-around are not modelled.
- Grids.Height and Grids.Render require a positive width. The source divides by the width and calls `chunks(width)`, both of which panic on zero. `New` with width 0 is still modelled.
- RoomGen.ValidOffsets, and with it the requires of RoomGen.ApplyVertexOffset, RoomGen.Corners and RoomGen.Generate, admits only offsets inside `[min, max)`. When `min >= max`, a corner whose offset draw succeeds makes `gen_range` panic; the model has no such run and does not model the panic.
- LineGen.StraightLine: the end samples are exact only while both coordinates and their difference on each axis are at most 2^24 in magnitude, so that `f32` holds them exactly (for example, coordinates up to 2^23). Beyond that the source's rounding may miss the end point: from `x = -16777213` to `x = 16777216` the difference rounds to 33554428, and the last sample lands on 16777215. The model does not cover such segments.
- LineGen.Distort requires a non-empty input: the source indexes `points[0]`, which panics on an empty vector.
