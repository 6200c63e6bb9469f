# Digitizer path geometry in Dafny

This project models the geometry engine of the plot digitizer. The digitizer lets a user
recover data from a vector image of a plot by clicking on the drawn curves. The model covers
four parts:

- **`geometry.distance2`** (`geometry.dfy`, module `Geometry`). It gives the squared distance
  from a point to a point, or to a closed segment. Points are pairs of unbounded reals. The
  segment formula is proved to be the least squared distance from `x` to any point
  `x0 + t (x1 - x0)` with `0 <= t <= 1`. From that follow non-negativity, the endpoint bound,
  symmetry, translation invariance, and zero exactly on the segment. The single division is
  proved never to divide by zero.
- **The tokenizer of `_compute_abs_path`** (`tokens.dfy`, module `Tokens`). It is Python's
  `d.strip().split(' ')` on the `d` attribute of an SVG path.
- **`_compute_abs_path`** (`abs_path.dfy`, module `AbsPath`). `ComputeAbsPath` is the loop of
  the source. It updates a mode character, a component index `idx`, a two-element coordinate
  and the output list, one token at a time. It is proved equal to `AbsPath`, a fold of one
  `Step` per token that stops at the first exception. The lemmas state what each kind of token
  does to the state.
  - Tokens are told apart only by their length.
  - `idx` is not reset when the mode changes.
  - An operand in Z mode repeats the first point, and raises IndexError before any point.
  - Operands of unknown modes are skipped.
- **`Path` and `Paths`** (`core.dfy`, module `Core`).
  - `Path` is a class whose `cache` field is `_abs_path`. Its `AbsPath` method runs the
    interpreter only while nothing is cached. A ghost counter `runs` records how often the
    interpreter ran.
  - `Path.Distance2` is `distance2`.
  - `Paths.FindNearest` measures every path in document order, then applies `nanargmin`.
  - `np.nan` is `None`. `np.min` is `MinOf` and `np.nanargmin` is `NanArgMin`.
  - Python exceptions are the `Failure` values of a `Result`:
    - `FloatValueError` comes from `float(txt)`;
    - `IndexError` comes from `paths[0]` in Z mode;
    - `AllNaNValueError` comes from `nanargmin`.

`Path.distance2` passes its arguments to `geometry.distance2` in an order that does not match
that function's parameters (see Findings). The methods `Path.Distance2` and
`Paths.FindNearest` keep the call as written. `Core.PathDistance2` is the intended squared
distance from a point to a polyline, and its properties are proved separately.

`wrappers.dfy` holds the `Option` and `Result` datatypes.

## Model

| member | source | states |
|---|---|---|
| Geometry.PointDistance2 | digitizer/geometry.py:8-10 | with `x1` omitted the result is the squared Euclidean distance `‖x0 - x‖^2`; it is at least 0, and it is 0 exactly when `x0 == x` |
| Geometry.SegmentDistance2 | digitizer/geometry.py:11-19 | the closed-segment formula, taking the interior branch exactly when `dx@x0 < 0` and `dx@x1 > 0`; `ClosestParameter` and `SegmentDistanceIsLowerBound` state its meaning, the least squared distance from `x` to any point of the segment |
| Geometry.Distance2 | digitizer/geometry.py:4-19 | the result is at least 0; with `x1` omitted it is the point distance; with `x1` given it is no more than the squared distance from `x` to either endpoint |
| Geometry.ClosestParameter | digitizer/geometry.py:11-19 | some `t` in [0, 1] gives a segment point whose squared distance to `x` is exactly the segment formula's value: the value is attained on the segment |
| Geometry.SegmentDistanceIsLowerBound | digitizer/geometry.py:11-19 | no point `x0 + t (x1 - x0)` with `0 <= t <= 1` is nearer to `x` than the segment formula says; with `ClosestParameter` the formula is the minimum over the segment |
| Geometry.SegmentDistanceNonNegative | digitizer/geometry.py:13-19 | the segment formula is never negative, including the interior expression with its subtraction |
| Geometry.SegmentNoFartherThanEndpoints | digitizer/geometry.py:13-19 | the segment is never farther from `x` than either endpoint |
| Geometry.SegmentDistanceZeroIff | digitizer/geometry.py:11-19 | the result is 0 if and only if `x` lies on the closed segment |
| Geometry.SegmentDistanceZeroAtEndpoints | digitizer/geometry.py:13-19 | the result is 0 when `x` is `x0` or `x1` |
| Geometry.SegmentDistanceSymmetric | digitizer/geometry.py:11-19 | swapping the endpoints leaves the result unchanged |
| Geometry.SegmentDistanceTranslation | digitizer/geometry.py:8-19 | shifting `x`, `x0` and `x1` by one vector leaves the result unchanged |
| Geometry.InteriorNonDegenerate | digitizer/geometry.py:13-16 | when the interior test holds, `dx @ dx > 0`, so the division never divides by zero |
| Geometry.EquidistantInterior | digitizer/geometry.py:13-16 | in the interior branch with both endpoints equally far from `x`, the result is a quarter of `‖x0 + x1‖^2` (shifted by `x`) |
| Geometry.ExampleUnitSegment | digitizer/tests/test_geometry.py:6-7 | the segment from (1, 0) to (0, 1) is at squared distance exactly 1/2 from (0, 0) |
| Geometry.ExampleShiftedSegment | digitizer/tests/test_geometry.py:6-8 | the segment from (3, 2) to (2, 3) is at squared distance exactly 1/2 from (2, 2) |
| Tokens.StripLeft | digitizer/core.py:19 | removes exactly the leading whitespace: what it drops is whitespace and what it keeps does not start with whitespace |
| Tokens.StripRight | digitizer/core.py:19 | removes exactly the trailing whitespace |
| Tokens.StripIsTrim | digitizer/core.py:19 | `strip()` keeps a contiguous slice of `d` that neither starts nor ends with whitespace, and everything around it is whitespace |
| Tokens.StripIdempotent | digitizer/core.py:19 | stripping twice is stripping once |
| Tokens.Split | digitizer/core.py:19 | `split(' ')` yields at least one piece, no piece contains a space, and joining the pieces with single spaces gives the input back |
| Tokens.SplitJoin | digitizer/core.py:19 | splitting the join of space-free pieces gives the pieces back, empty pieces included |
| Tokens.Tokenize | digitizer/core.py:19 | the token list is non-empty, has no spaces in it, and joins back to the stripped `d` |
| Tokens.TokenizeJoined | digitizer/core.py:19 | space-free tokens joined by single spaces, with no whitespace at either end, tokenize back to exactly those tokens |
| AbsPath.Run | digitizer/core.py:20-54 | the loop as a fold of `Step` over the tokens from the initial state of core.py:20-23, stopping at the first exception; `RunFailureSticks`, `RunRaises`, `RunAppendOnly` and `OutputBound` state its properties |
| AbsPath.AbsPath | digitizer/core.py:18-56 | what `_compute_abs_path` returns or raises for a `d` attribute: the output list of `Run` over `Tokenize(d)`, or its exception; `ComputeAbsPath` is proved equal to it |
| AbsPath.ComputeAbsPath | digitizer/core.py:18-56 | the loop returns the points of `AbsPath(parse, d)`, or raises the first exception a token raises |
| AbsPath.ExecuteToken | digitizer/core.py:25-54 | one loop iteration on the mutable `mode`, `coord`, `idx` and `paths` does what `Step` says, including the error it raises |
| AbsPath.Step | digitizer/core.py:24-54 | one token appends at most one point and never changes earlier points; an operand keeps the mode; only operands raise, and only ValueError from `float` or IndexError |
| AbsPath.ModeToken | digitizer/core.py:25-26 | a one-character token, even a digit, sets the mode and changes nothing else |
| AbsPath.LinetoOperand | digitizer/core.py:28-37 | an M/L operand sets component `idx` and an m/l operand adds to it, leaving the other component alone; `idx` flips; a point is emitted exactly when `idx` was 1; a rejected number raises ValueError |
| AbsPath.ClosepathOperand | digitizer/core.py:38-40 | a Z/z operand appends a copy of the first point and resets `idx`; it raises IndexError exactly when no point has been emitted |
| AbsPath.AxisOperand | digitizer/core.py:41-54 | H/h changes only x and V/v only y, each emits the new point at once and resets `idx`; a rejected number raises ValueError |
| AbsPath.OtherModeOperand | digitizer/core.py:28-54 | an operand under any other mode (C, Q, a digit, ...) changes nothing |
| AbsPath.RunFailureSticks | digitizer/core.py:24-56 | once a token raises, the rest of the token list is not interpreted and the same exception escapes |
| AbsPath.RunRaises | digitizer/core.py:24-54 | the interpreter raises only ValueError from `float` or IndexError from `paths[0]` |
| AbsPath.RunAppendOnly | digitizer/core.py:24-56 | points emitted by a prefix of the tokens are a prefix of the final output |
| AbsPath.OutputBound | digitizer/core.py:24-56 | the number of points is at most the number of operand tokens, which is at most the number of tokens |
| AbsPath.FirstPointStable | digitizer/core.py:39 | the first emitted point, the one Z mode copies, never changes afterwards |
| AbsPath.RunSnoc | digitizer/core.py:24 | interpreting one more token is one more `Step`, unless an exception was already raised |
| AbsPath.ExampleAbsolute | digitizer/core.py:19-37 | the `d` string `M 10 20 L 30 40` (its tokens joined by single spaces) yields (10, 20), (30, 40) |
| AbsPath.ExampleRelative | digitizer/core.py:19-37 | the `d` string `m 10 20 l 15 15` yields (10, 20), (25, 35) |
| AbsPath.ExampleSingleDigits | digitizer/core.py:19-26 | the `d` string `M 1 2 L 3 4` yields no point, because every token has one character |
| AbsPath.ExampleClose | digitizer/core.py:19-40 | the `d` string `M 10 20 Z 00` yields (10, 20) twice |
| AbsPath.ExampleEarlyClose | digitizer/core.py:19-40 | the `d` string `Z 00` raises IndexError |
| AbsPath.ExampleEmptyOperand | digitizer/core.py:19-30 | the `d` string `M  10`, with a double space, gives an empty operand, which `float` rejects with ValueError |
| AbsPath.ExampleRepeatedVertex | digitizer/core.py:19-37 | the `d` string `M 10 10 L 10 10` yields (10, 10) twice |
| Core.MinOf | digitizer/core.py:83 | `np.min` returns an entry of the list that is no greater than any entry |
| Core.NanArgMin | digitizer/core.py:102 | `np.nanargmin` fails exactly when no entry is a number; otherwise it returns the index of a number no greater than every number, and strictly less than every number before it |
| Core.AsWrittenSegmentDistances | digitizer/core.py:79-82 | with the arguments as written, entry `i` is at least 0, at most the squared distance from vertex `i` to the query point, and at most the squared distance from vertex `i` to vertex `i + 1` |
| Core.AsWrittenSegmentDistanceAt | digitizer/core.py:80-81 | entry `i` is `geometry.distance2(p[i], p[i+1], point)`: the distance from vertex `i` to the segment from vertex `i + 1` to the query point |
| Core.AsWrittenPathDistance2 | digitizer/core.py:71-83 | `None` exactly for an empty path; `‖p0 - point‖^2` for one point; otherwise at least 0 and at most the squared distance from the query point to every vertex but the last |
| Core.RepeatedVertexAsWritten | digitizer/core.py:80-81 | as written, the path `[p, p]` is at distance 0 from every point `point != p`, though its true squared distance `‖p - point‖^2` is positive |
| Core.RepeatedVertexFromAttribute | digitizer/core.py:19-37 | the `d` string `M 10 10 L 10 10` gives the path [(10, 10), (10, 10)], which as written is at distance 0 from every other point while its true squared distance is positive |
| Core.AsWrittenWithinFirstSegment | digitizer/core.py:79-83 | as written, a path of two or more points is at most the squared length of its first segment from every point |
| Core.SegmentDistances | digitizer/core.py:79-82 | with the query point first, entry `i` is at least 0 and at most the squared distance from the query point to either end of segment `i` |
| Core.SegmentDistanceAt | digitizer/core.py:79-82 | entry `i` is the distance from the query point to the segment from vertex `i` to vertex `i + 1` |
| Core.PathDistance2 | digitizer/core.py:71-83 | `None` exactly for an empty path; otherwise at least 0 and no more than the squared distance to any vertex |
| Core.SinglePointDistance | digitizer/core.py:74-77 | a one-point path is at the point distance `‖p0 - point‖^2`, both as written and as intended |
| Core.PathDistanceIsLowerBound | digitizer/core.py:79-83 | no point on any segment of the path is nearer to the query point than the intended distance |
| Core.PathDistanceAttained | digitizer/core.py:79-83 | the intended distance is attained at some point of some segment |
| Core.PathDistanceZeroIff | digitizer/core.py:71-83 | the intended distance is 0 if and only if the query point lies on the path |
| Core.Path.constructor | digitizer/core.py:60-62 | a new path has nothing cached and has not run the interpreter |
| Core.Path.AbsPath | digitizer/core.py:64-69 | returns the interpreter's result; runs the interpreter only when nothing is cached and caches a returned list; a cached list is returned unchanged without running again |
| Core.Path.Distance2 | digitizer/core.py:71-83 | returns the as-written distance of the interpreter's output, or the interpreter's exception; runs the interpreter at most once per call, and not at all once a list is cached; a path whose interpreter raises runs it again on every call |
| Core.Nearest | digitizer/core.py:101-103 | `nanargmin` of the list of distances, or the first exception raised while building it; `NearestFailsWhenAllEmpty`, `NearestIsLeast`, `NearestIsFirst` and `NearestRaises` state what it picks |
| Core.Distances | digitizer/core.py:101 | the list of distances exists exactly when no path raises; entry `k` is the as-written distance of path `k` |
| Core.DistancesFailureSticks | digitizer/core.py:101 | an exception while measuring a path ends the comprehension with that exception |
| Core.NearestFailsWhenAllEmpty | digitizer/core.py:101-102 | when no path raises, `find_nearest` raises the ValueError of `nanargmin` exactly when every path is empty, or there is no path |
| Core.NearestIsLeast | digitizer/core.py:101-103 | the chosen path is non-empty and no farther than any non-empty path |
| Core.NearestIsFirst | digitizer/core.py:101-103 | every non-empty path before the chosen one is strictly farther |
| Core.NearestRaises | digitizer/core.py:101 | the exception of the first path whose interpreter raises is the exception of `find_nearest`, and it is ValueError from `float` or IndexError |
| Core.Paths.constructor | digitizer/core.py:90-94 | one fresh path per `d` attribute, in document order, each with nothing cached |
| Core.Paths.FindNearest | digitizer/core.py:96-103 | returns the path at the index `Nearest` picks, or raises the exception `Nearest` raises |

## Left out

- `float(txt)` is the parameter `parse: string -> Option<real>`. How Python reads numbers is not modelled. `None` stands for the ValueError.
- IEEE floating point is not modelled: coordinates and distances are unbounded reals. Rounding, infinities and `np.allclose` tolerance are absent, and the two test cases are proved with exact equality.
- NaN and infinite coordinates are not modelled. `float` accepts `nan`, `inf` and overflowing literals such as `1e999`, which give NaN or infinite coordinates; a path with such a coordinate can have a NaN distance, which `nanargmin` then skips. `parse` returns only real numbers, so in the model NaN appears only as `np.nan` for an empty path, modelled as `None`.
- `numpy` arrays of two components are the `Point` datatype. `np.array(coord)` copies the list, so a value captures it exactly.
- `coord` is a local `seq<real>` of length 2 that the loop reassigns component by component, not a shared list object.
- XML parsing is not modelled: `minidom.parseString`, `getElementsByTagName` and `getAttribute`. `Paths` is built from the `d` attributes of the path elements in document order, and `Path` knows its element by its `d` attribute. The `svg` field is not kept.
- `_to_svg` (digitizer/core.py:11-15) is a call into PyMuPDF, which is foreign I/O.
- `appended_svd` and `group` (digitizer/core.py:105-114) are unfinished stubs with no behaviour.
- digitizer/gui.py is not part of this model. It holds Qt widgets, dialogs and file output.
- Transforms, curve commands, unit conversion and style filtering do not exist in this code. The model follows the code and has none of them:
  - there is no `transform` handling;
  - a `C` command is skipped like any unknown mode, not replaced by a NaN point;
  - every path element takes part in `find_nearest`;
  - `find_nearest` raises `nanargmin`'s ValueError instead of returning an empty result.
- `np.nanargmin` raises ValueError both for an empty list and for a list of NaN only. The model uses one error, `AllNaNValueError`, for both.
- Core.Paths.FindNearest: does not state which paths hold a cached list afterwards. `Core.Path.Distance2` states it for each path it measures.
- The counter `runs` is ghost state added to state how often the interpreter runs. It has no counterpart in the source.

## Findings

| source | as written | input that shows it | evidently intended | confidence | as-written member | corrected member |
|---|---|---|---|---|---|---|
| digitizer/core.py:80-81 | `geometry.distance2(self.abs_path[i], self.abs_path[i+1], point)` passes vertex `i` as the query point and `point` as the far endpoint, so each entry is the distance from vertex `i` to the segment from vertex `i + 1` to `point` | the `d` string `M 10 10 L 10 10` with `float("10") == 10.0`, which gives the path `[p, p]` with `p = (10, 10)`, and any `point != p`: the as-written distance is 0, while the true squared distance is `‖p - point‖^2 > 0`, so `find_nearest` chooses this path wherever the user clicks, unless an earlier path also scores 0 or some path's interpreter raises. More generally, as written every path of two or more points is within the squared length of its first segment of every click (`Core.AsWrittenWithinFirstSegment`), so any path with a short first segment scores near 0 everywhere | `geometry.distance2(point, self.abs_path[i], self.abs_path[i+1])`, the distance from `point` to segment `i` | not executed | Core.RepeatedVertexFromAttribute | Core.PathDistance2 |

`Core.PathDistance2` is proved to be the least squared distance from the query point to any
point of the polyline (`PathDistanceIsLowerBound`, `PathDistanceAttained`). It is 0 exactly
on the polyline (`PathDistanceZeroIff`). The methods `Path.Distance2` and `Paths.FindNearest`
keep the source's call, so they return what the source returns.
