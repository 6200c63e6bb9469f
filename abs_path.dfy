/**
 * `_compute_abs_path` of digitizer/core.py:18-56: the interpreter that turns
 * the `d` attribute of an SVG path into the list of absolute points it visits.
 *
 * The interpreter keeps a mode character, a component index `idx`, a running
 * coordinate and the output list. Tokens are told apart only by their length:
 * every one-character token becomes the mode, every other token (the empty
 * token included) is an operand of the current mode.
 */
module AbsPath {
  import opened Wrappers
  import opened Geometry
  import opened Tokens

  /** The exceptions that escape from the core of the digitizer. */
  datatype Error =
    | FloatValueError(text: string)  // `float(txt)` rejected `txt`
    | IndexError                     // `paths[0]` on an empty output list
    | AllNaNValueError               // `np.nanargmin` of a list with no non-NaN entry

  /**
   * `float(txt)`: `Some(v)` when Python reads `txt` as the number `v`,
   * `None` when it raises ValueError. Parsing itself is not modelled.
   */
  type Parser = string -> Option<real>

  /** The index of the coordinate component that the next M/L/m/l operand sets. */
  type Index = i: int | 0 <= i <= 1

  datatype State = State(mode: char, coord: Point, idx: Index, paths: seq<Point>)

  /** The state before the first token (core.py:20-23). */
  const Start := State('M', Point(0.0, 0.0), 0, [])

  function Component(p: Point, i: Index): real {
    if i == 0 then p.x else p.y
  }

  function WithComponent(p: Point, i: Index, v: real): (q: Point)
    ensures Component(q, i) == v
    ensures Component(q, 1 - i) == Component(p, 1 - i)
  {
    if i == 0 then Point(v, p.y) else Point(p.x, v)
  }

  /** The mode tests of core.py:28, 32, 38, 41 and 48. */
  predicate IsLineto(c: char) { c == 'M' || c == 'L' || c == 'm' || c == 'l' }
  predicate IsAbsoluteLineto(c: char) { c == 'M' || c == 'L' }
  predicate IsClosepath(c: char) { c == 'z' || c == 'Z' }
  predicate IsHorizontal(c: char) { c == 'h' || c == 'H' }
  predicate IsVertical(c: char) { c == 'v' || c == 'V' }

  /** One iteration of the loop of core.py:24-54 on the token `txt`. */
  function Step(parse: Parser, s: State, txt: string): (r: Result<State, Error>)
    ensures r.Success? ==> s.paths <= r.value.paths && |r.value.paths| <= |s.paths| + 1
    ensures r.Success? && |txt| != 1 ==> r.value.mode == s.mode
    ensures r.Failure? ==> |txt| != 1 && (r.error.FloatValueError? || r.error.IndexError?)
  {
    if |txt| == 1 then Success(State(txt[0], s.coord, s.idx, s.paths))
    else if IsLineto(s.mode) then LinetoStep(parse, s, txt)
    else if IsClosepath(s.mode) then ClosepathStep(s)
    else if IsHorizontal(s.mode) then HorizontalStep(parse, s, txt)
    else if IsVertical(s.mode) then VerticalStep(parse, s, txt)
    else Success(s)
  }

  /** core.py:29-37: an M/L/m/l operand sets or shifts component `idx`, emitting when `idx` was 1. */
  function LinetoStep(parse: Parser, s: State, txt: string): Result<State, Error> {
    match parse(txt)
    case None => Failure(FloatValueError(txt))
    case Some(v) => Success(Lineto(s, v))
  }

  function Lineto(s: State, v: real): State {
    var c := WithComponent(s.coord, s.idx, if IsAbsoluteLineto(s.mode) then v else Component(s.coord, s.idx) + v);
    if s.idx == 1 then State(s.mode, c, 0, s.paths + [c]) else State(s.mode, c, 1, s.paths)
  }

  /** core.py:38-40: a Z/z operand repeats the first emitted point. */
  function ClosepathStep(s: State): Result<State, Error> {
    if |s.paths| == 0 then Failure(IndexError)
    else Success(State(s.mode, s.coord, 0, s.paths + [s.paths[0]]))
  }

  /** core.py:41-47: an H/h operand sets or shifts x and emits. */
  function HorizontalStep(parse: Parser, s: State, txt: string): Result<State, Error> {
    match parse(txt)
    case None => Failure(FloatValueError(txt))
    case Some(v) => Success(Horizontal(s, v))
  }

  function Horizontal(s: State, v: real): State {
    var c := Point(if s.mode == 'H' then v else s.coord.x + v, s.coord.y);
    State(s.mode, c, 0, s.paths + [c])
  }

  /** core.py:48-54: a V/v operand sets or shifts y and emits. */
  function VerticalStep(parse: Parser, s: State, txt: string): Result<State, Error> {
    match parse(txt)
    case None => Failure(FloatValueError(txt))
    case Some(v) => Success(Vertical(s, v))
  }

  function Vertical(s: State, v: real): State {
    var c := Point(s.coord.x, if s.mode == 'V' then v else s.coord.y + v);
    State(s.mode, c, 0, s.paths + [c])
  }

  /** The loop run over `tokens` from `Start`; the first exception ends it. */
  function Run(parse: Parser, tokens: seq<string>): Result<State, Error>
    decreases |tokens|
  {
    if |tokens| == 0 then Success(Start)
    else
      match Run(parse, tokens[..|tokens| - 1])
      case Failure(e) => Failure(e)
      case Success(s) => Step(parse, s, tokens[|tokens| - 1])
  }

  /** What `_compute_abs_path` returns (or raises) for a path whose `d` attribute is `d`. */
  function AbsPath(parse: Parser, d: string): Result<seq<Point>, Error> {
    match Run(parse, Tokenize(d))
    case Failure(e) => Failure(e)
    case Success(s) => Success(s.paths)
  }

  /** core.py:18-56; `coord` is the two-element list that the loop updates component by component. */
  method ComputeAbsPath(parse: Parser, d: string) returns (r: Result<seq<Point>, Error>)
    ensures r == AbsPath(parse, d)
  {
    var txts := Tokenize(d);
    var mode := 'M';
    var paths: seq<Point> := [];
    var coord: seq<real> := [0.0, 0.0];
    var idx: Index := 0;
    var i := 0;
    while i < |txts|
      invariant 0 <= i <= |txts|
      invariant |coord| == 2
      invariant Run(parse, txts[..i]) == Success(State(mode, Point(coord[0], coord[1]), idx, paths))
    {
      RunNext(parse, txts, i);
      var err;
      err, mode, coord, idx, paths := ExecuteToken(parse, mode, coord, idx, paths, txts[i]);
      if err.Some? {
        RunFailureSticks(parse, txts, i + 1);
        return Failure(err.value);
      }
      i := i + 1;
    }
    assert txts[..i] == txts;
    return Success(paths);
  }

  /**
   * The body of the loop of core.py:24-54 for the token `txt`, updating the
   * interpreter's variables; `err` is the exception it raises, if any.
   */
  method ExecuteToken(parse: Parser, mode: char, coord: seq<real>, idx: Index, paths: seq<Point>, txt: string)
    returns (err: Option<Error>, mode': char, coord': seq<real>, idx': Index, paths': seq<Point>)
    requires |coord| == 2
    ensures |coord'| == 2
    ensures var r := Step(parse, State(mode, Point(coord[0], coord[1]), idx, paths), txt);
      match err
      case None => r == Success(State(mode', Point(coord'[0], coord'[1]), idx', paths'))
      case Some(e) => r == Failure(e)
  {
    ghost var before := State(mode, Point(coord[0], coord[1]), idx, paths);
    err, mode', coord', idx', paths' := None, mode, coord, idx, paths;
    if |txt| == 1 {
      ModeToken(parse, before, txt);
      mode' := txt[0];
    } else if IsLineto(mode) {
      LinetoOperand(parse, before, txt);
      var v := parse(txt);
      if v.None? {
        return Some(FloatValueError(txt)), mode', coord', idx', paths';
      }
      ghost var after := Lineto(before, v.value);
      if IsAbsoluteLineto(mode) {
        coord' := coord[idx := v.value];
      } else {
        coord' := coord[idx := coord[idx] + v.value];
      }
      assert Point(coord'[0], coord'[1]) == after.coord;
      if idx == 1 {
        paths' := paths + [Point(coord'[0], coord'[1])];
        idx' := 0;
      } else {
        idx' := 1;
      }
      assert after == State(mode', Point(coord'[0], coord'[1]), idx', paths');
    } else if IsClosepath(mode) {
      ClosepathOperand(parse, before, txt);
      if |paths| == 0 {
        return Some(IndexError), mode', coord', idx', paths';
      }
      paths' := paths + [paths[0]];
      idx' := 0;
    } else if IsHorizontal(mode) {
      AxisOperand(parse, before, txt);
      var v := parse(txt);
      if v.None? {
        return Some(FloatValueError(txt)), mode', coord', idx', paths';
      }
      ghost var after := Horizontal(before, v.value);
      if mode == 'H' {
        coord' := coord[0 := v.value];
      } else {
        coord' := coord[0 := coord[0] + v.value];
      }
      assert Point(coord'[0], coord'[1]) == after.coord;
      paths' := paths + [Point(coord'[0], coord'[1])];
      idx' := 0;
      assert after == State(mode', Point(coord'[0], coord'[1]), idx', paths');
    } else if IsVertical(mode) {
      AxisOperand(parse, before, txt);
      var v := parse(txt);
      if v.None? {
        return Some(FloatValueError(txt)), mode', coord', idx', paths';
      }
      ghost var after := Vertical(before, v.value);
      if mode == 'V' {
        coord' := coord[1 := v.value];
      } else {
        coord' := coord[1 := coord[1] + v.value];
      }
      assert Point(coord'[0], coord'[1]) == after.coord;
      paths' := paths + [Point(coord'[0], coord'[1])];
      idx' := 0;
      assert after == State(mode', Point(coord'[0], coord'[1]), idx', paths');
    } else {
      OtherModeOperand(parse, before, txt);
    }
  }

  // ---------------------------------------------------------------- the run as a whole

  /** Running the first i + 1 tokens is running the first i and then one `Step`. */
  lemma RunNext(parse: Parser, tokens: seq<string>, i: nat)
    requires i < |tokens|
    ensures Run(parse, tokens[..i + 1]) ==
      if Run(parse, tokens[..i]).Failure? then Run(parse, tokens[..i]) else Step(parse, Run(parse, tokens[..i]).value, tokens[i])
  {
    assert tokens[..i + 1][..i] == tokens[..i];
  }

  /** Running one more token is one more `Step`, unless the run has already failed. */
  lemma RunSnoc(parse: Parser, tokens: seq<string>, txt: string)
    ensures Run(parse, tokens + [txt]) ==
      if Run(parse, tokens).Failure? then Run(parse, tokens) else Step(parse, Run(parse, tokens).value, txt)
  {
    assert (tokens + [txt])[..|tokens|] == tokens;
  }

  /** An exception ends the loop: every longer token list fails with the same exception. */
  lemma {:induction false} RunFailureSticks(parse: Parser, tokens: seq<string>, n: nat)
    requires n <= |tokens|
    requires Run(parse, tokens[..n]).Failure?
    ensures Run(parse, tokens) == Run(parse, tokens[..n])
    decreases |tokens| - n
  {
    if n < |tokens| {
      var longer := tokens[..n + 1];
      assert longer[..n] == tokens[..n];
      RunFailureSticks(parse, tokens, n + 1);
    } else {
      assert tokens[..n] == tokens;
    }
  }

  /** The interpreter raises only what `float` and `paths[0]` raise, never the error of `nanargmin`. */
  lemma {:induction false} RunRaises(parse: Parser, tokens: seq<string>)
    requires Run(parse, tokens).Failure?
    ensures Run(parse, tokens).error.FloatValueError? || Run(parse, tokens).error.IndexError?
    decreases |tokens|
  {
    if Run(parse, tokens[..|tokens| - 1]).Failure? {
      RunRaises(parse, tokens[..|tokens| - 1]);
    }
  }

  /** The output only grows: the points emitted by a prefix of the tokens are never changed. */
  lemma {:induction false} RunAppendOnly(parse: Parser, tokens: seq<string>, n: nat)
    requires n <= |tokens|
    requires Run(parse, tokens).Success?
    ensures Run(parse, tokens[..n]).Success?
    ensures Run(parse, tokens[..n]).value.paths <= Run(parse, tokens).value.paths
    decreases |tokens| - n
  {
    if n == |tokens| {
      assert tokens[..n] == tokens;
    } else {
      var m := |tokens| - 1;
      assert tokens[..m][..n] == tokens[..n];
      RunAppendOnly(parse, tokens[..m], n);
    }
  }

  /** The number of operand tokens: those whose length is not one. */
  function Operands(tokens: seq<string>): nat {
    if |tokens| == 0 then 0
    else Operands(tokens[..|tokens| - 1]) + (if |tokens[|tokens| - 1]| == 1 then 0 else 1)
  }

  /** Each operand token emits at most one point; mode tokens emit none. */
  lemma {:induction false} OutputBound(parse: Parser, tokens: seq<string>)
    requires Run(parse, tokens).Success?
    ensures |Run(parse, tokens).value.paths| <= Operands(tokens) <= |tokens|
  {
    if |tokens| > 0 {
      OutputBound(parse, tokens[..|tokens| - 1]);
    }
  }

  /** The first point emitted stays the first point, whatever follows. */
  lemma FirstPointStable(parse: Parser, tokens: seq<string>, n: nat)
    requires n <= |tokens|
    requires Run(parse, tokens).Success?
    requires Run(parse, tokens[..n]).Success? && |Run(parse, tokens[..n]).value.paths| > 0
    ensures |Run(parse, tokens).value.paths| > 0
    ensures Run(parse, tokens).value.paths[0] == Run(parse, tokens[..n]).value.paths[0]
  {
    RunAppendOnly(parse, tokens, n);
  }

  // ---------------------------------------------------------------- one step, mode by mode

  /** A one-character token, even a digit, sets the mode and nothing else (core.py:25-26). */
  lemma ModeToken(parse: Parser, s: State, txt: string)
    requires |txt| == 1
    ensures Step(parse, s, txt) == Success(State(txt[0], s.coord, s.idx, s.paths))
  {
  }

  /**
   * An M/L/m/l operand sets (M, L) or shifts (m, l) the component `idx` and
   * leaves the other one alone; a point is emitted exactly when `idx` was 1,
   * and `idx` flips (core.py:28-37).
   */
  lemma LinetoOperand(parse: Parser, s: State, txt: string)
    requires |txt| != 1 && IsLineto(s.mode)
    ensures parse(txt).None? <==> Step(parse, s, txt) == Failure(FloatValueError(txt))
    ensures Step(parse, s, txt).Success? ==>
      var t := Step(parse, s, txt).value;
      var v := parse(txt).value;
      && Component(t.coord, s.idx) == (if IsAbsoluteLineto(s.mode) then v else Component(s.coord, s.idx) + v)
      && Component(t.coord, 1 - s.idx) == Component(s.coord, 1 - s.idx)
      && t.idx == 1 - s.idx
      && (t.paths == s.paths + [t.coord] <==> s.idx == 1)
      && (t.paths == s.paths <==> s.idx == 0)
  {
  }

  /**
   * A Z/z operand repeats the first emitted point and resets `idx`; with no
   * point emitted yet it raises IndexError (core.py:38-40).
   */
  lemma ClosepathOperand(parse: Parser, s: State, txt: string)
    requires |txt| != 1 && IsClosepath(s.mode)
    ensures |s.paths| == 0 <==> Step(parse, s, txt) == Failure(IndexError)
    ensures |s.paths| > 0 ==> Step(parse, s, txt) == Success(State(s.mode, s.coord, 0, s.paths + [s.paths[0]]))
  {
  }

  /** An H/h operand changes only x and emits the new point; V/v likewise with y (core.py:41-54). */
  lemma AxisOperand(parse: Parser, s: State, txt: string)
    requires |txt| != 1 && (IsHorizontal(s.mode) || IsVertical(s.mode))
    ensures parse(txt).None? <==> Step(parse, s, txt) == Failure(FloatValueError(txt))
    ensures Step(parse, s, txt).Success? ==>
      var t := Step(parse, s, txt).value;
      var v := parse(txt).value;
      && t.idx == 0
      && t.paths == s.paths + [t.coord]
      && (s.mode == 'H' ==> t.coord == Point(v, s.coord.y))
      && (s.mode == 'h' ==> t.coord == Point(s.coord.x + v, s.coord.y))
      && (s.mode == 'V' ==> t.coord == Point(s.coord.x, v))
      && (s.mode == 'v' ==> t.coord == Point(s.coord.x, s.coord.y + v))
  {
  }

  /** An operand of any other mode (C, Q, A, a digit, ...) is skipped (core.py:24-54). */
  lemma OtherModeOperand(parse: Parser, s: State, txt: string)
    requires |txt| != 1 && !IsLineto(s.mode) && !IsClosepath(s.mode) && !IsHorizontal(s.mode) && !IsVertical(s.mode)
    ensures Step(parse, s, txt) == Success(s)
  {
  }

  // ---------------------------------------------------------------- examples
  //
  // Each example states the interpreter's result for a `d` attribute written
  // as its tokens joined by single spaces (`Join(["M", "10"])` is "M 10"),
  // and rests on a lemma that runs the loop over those tokens step by step.

  /** The points of a `d` made of `tokens` joined by single spaces are those of the run over `tokens`. */
  lemma AbsPathOfTokens(parse: Parser, tokens: seq<string>)
    requires |tokens| >= 1 && forall k :: 0 <= k < |tokens| ==> ' ' !in tokens[k]
    requires |tokens[0]| > 0 && !IsSpace(tokens[0][0])
    requires var last := tokens[|tokens| - 1]; |last| > 0 && !IsSpace(last[|last| - 1])
    ensures AbsPath(parse, Join(tokens)) == match Run(parse, tokens)
      case Failure(e) => Failure(e)
      case Success(s) => Success(s.paths)
  {
    TokenizeJoined(tokens);
  }

  /** "M 10 20 L 30 40": absolute moveto and lineto emit both points. */
  lemma ExampleAbsolute(parse: Parser)
    requires parse("10") == Some(10.0) && parse("20") == Some(20.0)
    requires parse("30") == Some(30.0) && parse("40") == Some(40.0)
    ensures AbsPath(parse, Join(["M", "10", "20", "L", "30", "40"])) == Success([Point(10.0, 20.0), Point(30.0, 40.0)])
  {
    StepsAbsolute(parse);
    AbsPathOfTokens(parse, ["M", "10", "20", "L", "30", "40"]);
  }

  lemma StepsAbsolute(parse: Parser)
    requires parse("10") == Some(10.0) && parse("20") == Some(20.0)
    requires parse("30") == Some(30.0) && parse("40") == Some(40.0)
    ensures Run(parse, ["M", "10", "20", "L", "30", "40"]) == Success(State('L', Point(30.0, 40.0), 0, [Point(10.0, 20.0), Point(30.0, 40.0)]))
  {
    var ts := ["M", "10", "20", "L", "30", "40"];
    assert ts[..0] == [];
    assert ts[..1][..0] == ts[..0];
    assert Run(parse, ts[..1]) == Success(State('M', Point(0.0, 0.0), 0, []));
    assert ts[..2][..1] == ts[..1];
    assert Run(parse, ts[..2]) == Success(State('M', Point(10.0, 0.0), 1, []));
    assert ts[..3][..2] == ts[..2];
    assert [] + [Point(10.0, 20.0)] == [Point(10.0, 20.0)];
    assert Run(parse, ts[..3]) == Success(State('M', Point(10.0, 20.0), 0, [Point(10.0, 20.0)]));
    assert ts[..4][..3] == ts[..3];
    assert Run(parse, ts[..4]) == Success(State('L', Point(10.0, 20.0), 0, [Point(10.0, 20.0)]));
    assert ts[..5][..4] == ts[..4];
    assert Run(parse, ts[..5]) == Success(State('L', Point(30.0, 20.0), 1, [Point(10.0, 20.0)]));
    assert ts[..6][..5] == ts[..5];
    assert [Point(10.0, 20.0)] + [Point(30.0, 40.0)] == [Point(10.0, 20.0), Point(30.0, 40.0)];
    assert ts[..6] == ts;
  }

  /** "m 10 20 l 15 15": relative operands are added to the running coordinate. */
  lemma ExampleRelative(parse: Parser)
    requires parse("10") == Some(10.0) && parse("20") == Some(20.0) && parse("15") == Some(15.0)
    ensures AbsPath(parse, Join(["m", "10", "20", "l", "15", "15"])) == Success([Point(10.0, 20.0), Point(25.0, 35.0)])
  {
    StepsRelative(parse);
    AbsPathOfTokens(parse, ["m", "10", "20", "l", "15", "15"]);
  }

  lemma StepsRelative(parse: Parser)
    requires parse("10") == Some(10.0) && parse("20") == Some(20.0) && parse("15") == Some(15.0)
    ensures Run(parse, ["m", "10", "20", "l", "15", "15"]) == Success(State('l', Point(25.0, 35.0), 0, [Point(10.0, 20.0), Point(25.0, 35.0)]))
  {
    var ts := ["m", "10", "20", "l", "15", "15"];
    assert ts[..0] == [];
    assert ts[..1][..0] == ts[..0];
    assert Run(parse, ts[..1]) == Success(State('m', Point(0.0, 0.0), 0, []));
    assert ts[..2][..1] == ts[..1];
    assert Run(parse, ts[..2]) == Success(State('m', Point(10.0, 0.0), 1, []));
    assert ts[..3][..2] == ts[..2];
    assert [] + [Point(10.0, 20.0)] == [Point(10.0, 20.0)];
    assert Run(parse, ts[..3]) == Success(State('m', Point(10.0, 20.0), 0, [Point(10.0, 20.0)]));
    assert ts[..4][..3] == ts[..3];
    assert Run(parse, ts[..4]) == Success(State('l', Point(10.0, 20.0), 0, [Point(10.0, 20.0)]));
    assert ts[..5][..4] == ts[..4];
    assert Run(parse, ts[..5]) == Success(State('l', Point(25.0, 20.0), 1, [Point(10.0, 20.0)]));
    assert ts[..6][..5] == ts[..5];
    assert [Point(10.0, 20.0)] + [Point(25.0, 35.0)] == [Point(10.0, 20.0), Point(25.0, 35.0)];
    assert ts[..6] == ts;
  }

  /** "M 1 2 L 3 4": every token has one character, so all of them are modes and nothing is emitted. */
  lemma ExampleSingleDigits(parse: Parser)
    ensures AbsPath(parse, Join(["M", "1", "2", "L", "3", "4"])) == Success([])
  {
    StepsSingleDigits(parse);
    AbsPathOfTokens(parse, ["M", "1", "2", "L", "3", "4"]);
  }

  lemma StepsSingleDigits(parse: Parser)
    ensures Run(parse, ["M", "1", "2", "L", "3", "4"]) == Success(State('4', Point(0.0, 0.0), 0, []))
  {
    var ts := ["M", "1", "2", "L", "3", "4"];
    assert ts[..0] == [];
    assert ts[..1][..0] == ts[..0];
    assert Run(parse, ts[..1]) == Success(State('M', Point(0.0, 0.0), 0, []));
    assert ts[..2][..1] == ts[..1];
    assert Run(parse, ts[..2]) == Success(State('1', Point(0.0, 0.0), 0, []));
    assert ts[..3][..2] == ts[..2];
    assert Run(parse, ts[..3]) == Success(State('2', Point(0.0, 0.0), 0, []));
    assert ts[..4][..3] == ts[..3];
    assert Run(parse, ts[..4]) == Success(State('L', Point(0.0, 0.0), 0, []));
    assert ts[..5][..4] == ts[..4];
    assert Run(parse, ts[..5]) == Success(State('3', Point(0.0, 0.0), 0, []));
    assert ts[..6][..5] == ts[..5];
    assert ts[..6] == ts;
  }

  /** "M 10 20 Z 00": an operand in Z mode repeats the first point. */
  lemma ExampleClose(parse: Parser)
    requires parse("10") == Some(10.0) && parse("20") == Some(20.0)
    ensures AbsPath(parse, Join(["M", "10", "20", "Z", "00"])) == Success([Point(10.0, 20.0), Point(10.0, 20.0)])
  {
    StepsClose(parse);
    AbsPathOfTokens(parse, ["M", "10", "20", "Z", "00"]);
  }

  lemma StepsClose(parse: Parser)
    requires parse("10") == Some(10.0) && parse("20") == Some(20.0)
    ensures Run(parse, ["M", "10", "20", "Z", "00"]) == Success(State('Z', Point(10.0, 20.0), 0, [Point(10.0, 20.0), Point(10.0, 20.0)]))
  {
    var ts := ["M", "10", "20", "Z", "00"];
    assert ts[..0] == [];
    assert ts[..1][..0] == ts[..0];
    assert Run(parse, ts[..1]) == Success(State('M', Point(0.0, 0.0), 0, []));
    assert ts[..2][..1] == ts[..1];
    assert Run(parse, ts[..2]) == Success(State('M', Point(10.0, 0.0), 1, []));
    assert ts[..3][..2] == ts[..2];
    assert [] + [Point(10.0, 20.0)] == [Point(10.0, 20.0)];
    assert Run(parse, ts[..3]) == Success(State('M', Point(10.0, 20.0), 0, [Point(10.0, 20.0)]));
    assert ts[..4][..3] == ts[..3];
    assert Run(parse, ts[..4]) == Success(State('Z', Point(10.0, 20.0), 0, [Point(10.0, 20.0)]));
    assert ts[..5][..4] == ts[..4];
    assert [Point(10.0, 20.0)] + [Point(10.0, 20.0)] == [Point(10.0, 20.0), Point(10.0, 20.0)];
    assert ts[..5] == ts;
  }

  /** "Z 00" before any point: the operand of Z raises IndexError. */
  lemma ExampleEarlyClose(parse: Parser)
    ensures AbsPath(parse, Join(["Z", "00"])) == Failure(IndexError)
  {
    StepsEarlyClose(parse);
    AbsPathOfTokens(parse, ["Z", "00"]);
  }

  lemma StepsEarlyClose(parse: Parser)
    ensures Run(parse, ["Z", "00"]) == Failure(IndexError)
  {
    var ts := ["Z", "00"];
    assert ts[..0] == [];
    assert ts[..1][..0] == ts[..0];
    assert Run(parse, ts[..1]) == Success(State('Z', Point(0.0, 0.0), 0, []));
    assert ts[..2][..1] == ts[..1];
    assert ts[..2] == ts;
  }

  /** "M  10": the double space yields an empty operand, which `float` rejects. */
  lemma ExampleEmptyOperand(parse: Parser)
    requires parse("") == None
    ensures AbsPath(parse, Join(["M", "", "10"])) == Failure(FloatValueError(""))
  {
    StepsEmptyOperand(parse);
    AbsPathOfTokens(parse, ["M", "", "10"]);
  }

  lemma StepsEmptyOperand(parse: Parser)
    requires parse("") == None
    ensures Run(parse, ["M", "", "10"]) == Failure(FloatValueError(""))
  {
    var ts := ["M", "", "10"];
    assert ts[..0] == [];
    assert ts[..1][..0] == ts[..0];
    assert Run(parse, ts[..1]) == Success(State('M', Point(0.0, 0.0), 0, []));
    assert ts[..2][..1] == ts[..1];
    assert Run(parse, ts[..2]) == Failure(FloatValueError(""));
    assert ts[..3][..2] == ts[..2];
    assert ts[..3] == ts;
  }

  /** "M 10 10 L 10 10": a lineto to the point just visited emits that point a second time. */
  lemma ExampleRepeatedVertex(parse: Parser)
    requires parse("10") == Some(10.0)
    ensures AbsPath(parse, Join(["M", "10", "10", "L", "10", "10"])) == Success([Point(10.0, 10.0), Point(10.0, 10.0)])
  {
    StepsRepeatedVertex(parse);
    AbsPathOfTokens(parse, ["M", "10", "10", "L", "10", "10"]);
  }

  lemma StepsRepeatedVertex(parse: Parser)
    requires parse("10") == Some(10.0)
    ensures Run(parse, ["M", "10", "10", "L", "10", "10"]) == Success(State('L', Point(10.0, 10.0), 0, [Point(10.0, 10.0), Point(10.0, 10.0)]))
  {
    var ts := ["M", "10", "10", "L", "10", "10"];
    assert ts[..0] == [];
    assert ts[..1][..0] == ts[..0];
    assert Run(parse, ts[..1]) == Success(State('M', Point(0.0, 0.0), 0, []));
    assert ts[..2][..1] == ts[..1];
    assert Run(parse, ts[..2]) == Success(State('M', Point(10.0, 0.0), 1, []));
    assert ts[..3][..2] == ts[..2];
    assert [] + [Point(10.0, 10.0)] == [Point(10.0, 10.0)];
    assert Run(parse, ts[..3]) == Success(State('M', Point(10.0, 10.0), 0, [Point(10.0, 10.0)]));
    assert ts[..4][..3] == ts[..3];
    assert Run(parse, ts[..4]) == Success(State('L', Point(10.0, 10.0), 0, [Point(10.0, 10.0)]));
    assert ts[..5][..4] == ts[..4];
    assert Run(parse, ts[..5]) == Success(State('L', Point(10.0, 10.0), 1, [Point(10.0, 10.0)]));
    assert ts[..6][..5] == ts[..5];
    assert [Point(10.0, 10.0)] + [Point(10.0, 10.0)] == [Point(10.0, 10.0), Point(10.0, 10.0)];
    assert ts[..6] == ts;
  }
}
