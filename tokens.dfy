/**
 * The tokenizer of digitizer/core.py:19: the `d` attribute of an SVG path is
 * stripped of surrounding whitespace (Python's `str.strip()`) and cut at
 * every single space (`str.split(' ')`), so runs of spaces give empty tokens.
 */
module Tokens {

  /** The characters for which Python's `str.isspace()` holds, which `str.strip()` removes. */
  predicate IsSpace(c: char) {
    c == ' ' || c == '\t' || c == '\n' || c == '\r' || c == '\U{000B}' || c == '\U{000C}'
    || ('\U{001C}' <= c <= '\U{001F}') || c == '\U{0085}' || c == '\U{00A0}' || c == '\U{1680}'
    || ('\U{2000}' <= c <= '\U{200A}') || c == '\U{2028}' || c == '\U{2029}' || c == '\U{202F}'
    || c == '\U{205F}' || c == '\U{3000}'
  }

  /** `s.lstrip()`: the longest suffix of `s` that does not start with whitespace. */
  function StripLeft(s: string): (r: string)
    ensures |r| <= |s| && r == s[|s| - |r|..]
    ensures forall k :: 0 <= k < |s| - |r| ==> IsSpace(s[k])
    ensures |r| > 0 ==> !IsSpace(r[0])
  {
    if |s| > 0 && IsSpace(s[0]) then StripLeft(s[1..]) else s
  }

  /** `s.rstrip()`: the longest prefix of `s` that does not end with whitespace. */
  function StripRight(s: string): (r: string)
    ensures |r| <= |s| && r == s[..|r|]
    ensures forall k :: |r| <= k < |s| ==> IsSpace(s[k])
    ensures |r| > 0 ==> !IsSpace(r[|r| - 1])
  {
    if |s| > 0 && IsSpace(s[|s| - 1]) then StripRight(s[..|s| - 1]) else s
  }

  /** `s.strip()`. */
  function Strip(s: string): string {
    StripRight(StripLeft(s))
  }

  /** `Strip` keeps the middle part of `s` that starts at `i`, and removes only whitespace around it. */
  lemma StripIsTrim(s: string, i: nat)
    requires i == |s| - |StripLeft(s)|
    ensures var r := Strip(s);
      i + |r| <= |s| && r == s[i..i + |r|] &&
      (forall k :: 0 <= k < i ==> IsSpace(s[k])) &&
      (forall k :: i + |r| <= k < |s| ==> IsSpace(s[k]))
    ensures var r := Strip(s); |r| > 0 ==> !IsSpace(r[0]) && !IsSpace(r[|r| - 1])
  {
    StripSlice(s, i);
    SpacesAfter(s, i, Strip(s));
    StripEnds(s);
  }

  lemma StripSlice(s: string, i: nat)
    requires i == |s| - |StripLeft(s)|
    ensures i + |Strip(s)| <= |s| && Strip(s) == s[i..i + |Strip(s)|]
  {
    var l := StripLeft(s);
    var r := StripRight(l);
    assert l == s[i..];
    assert r == l[..|r|];
    SliceOfSuffix(s, i, |r|, l, r);
  }

  lemma SliceOfSuffix(s: string, i: nat, n: nat, l: string, r: string)
    requires i + n <= |s| && l == s[i..] && r == l[..n]
    ensures r == s[i..i + n]
  {
  }

  lemma StripEnds(s: string)
    ensures var r := Strip(s); |r| > 0 ==> !IsSpace(r[0]) && !IsSpace(r[|r| - 1])
  {
    var l := StripLeft(s);
    var r := StripRight(l);
    if |r| > 0 {
      assert r[0] == l[0];
    }
  }

  /** The whitespace that `StripRight` removes from `s[i..]` lies in `s` past the kept part. */
  lemma SpacesAfter(s: string, i: nat, r: string)
    requires i <= |s| && r == StripRight(s[i..])
    ensures forall k :: i + |r| <= k < |s| ==> IsSpace(s[k])
  {
    forall k | i + |r| <= k < |s|
      ensures IsSpace(s[k])
    {
      assert s[k] == s[i..][k - i];
    }
  }

  /** Stripping twice is stripping once. */
  lemma StripIdempotent(s: string)
    ensures Strip(Strip(s)) == Strip(s)
  {
    var r := Strip(s);
    StripIsTrim(s, |s| - |StripLeft(s)|);
    assert StripLeft(r) == r;
    assert StripRight(r) == r;
  }

  /** The position of the first space of `s`. */
  function FirstSpace(s: string): (i: nat)
    requires ' ' in s
    ensures i < |s| && s[i] == ' ' && ' ' !in s[..i]
  {
    if s[0] == ' ' then 0
    else
      var i := FirstSpace(s[1..]);
      assert s[..i + 1] == [s[0]] + s[1..][..i];
      i + 1
  }

  /** `sep.join(pieces)` with `sep == ' '`. */
  function Join(pieces: seq<string>): string
    requires |pieces| >= 1
  {
    if |pieces| == 1 then pieces[0] else pieces[0] + [' '] + Join(pieces[1..])
  }

  /** `s.split(' ')`: the pieces between consecutive spaces, empty ones included. */
  function Split(s: string): (pieces: seq<string>)
    ensures |pieces| >= 1
    ensures forall k :: 0 <= k < |pieces| ==> ' ' !in pieces[k]
    ensures Join(pieces) == s
    decreases |s|
  {
    if ' ' !in s then [s]
    else
      var i := FirstSpace(s);
      var rest := Split(s[i + 1..]);
      assert s == s[..i] + [' '] + s[i + 1..];
      [s[..i]] + rest
  }

  /** Splitting a joined list of space-free pieces gives the pieces back. */
  lemma {:induction false} SplitJoin(pieces: seq<string>)
    requires |pieces| >= 1
    requires forall k :: 0 <= k < |pieces| ==> ' ' !in pieces[k]
    ensures Split(Join(pieces)) == pieces
  {
    if |pieces| > 1 {
      var s := Join(pieces);
      var p := pieces[0];
      assert s == p + [' '] + Join(pieces[1..]);
      assert s[|p|] == ' ';
      assert s[..|p|] == p;
      assert FirstSpace(s) == |p|;
      assert s[|p| + 1..] == Join(pieces[1..]);
      SplitJoin(pieces[1..]);
    }
  }

  /** The last character of a joined list is the last character of its last piece. */
  lemma {:induction false} JoinEndsWith(pieces: seq<string>)
    requires |pieces| >= 1 && |pieces[|pieces| - 1]| > 0
    ensures var s := Join(pieces); var last := pieces[|pieces| - 1];
      |s| > 0 && s[|s| - 1] == last[|last| - 1]
  {
    if |pieces| > 1 {
      JoinEndsWith(pieces[1..]);
    }
  }

  /**
   * Space-free pieces that neither start nor end with whitespace, joined by
   * single spaces, are cut back into exactly those pieces: `d.strip()` leaves
   * such a `d` as it is and `split(' ')` undoes the join.
   */
  lemma TokenizeJoined(tokens: seq<string>)
    requires |tokens| >= 1 && forall k :: 0 <= k < |tokens| ==> ' ' !in tokens[k]
    requires |tokens[0]| > 0 && !IsSpace(tokens[0][0])
    requires var last := tokens[|tokens| - 1]; |last| > 0 && !IsSpace(last[|last| - 1])
    ensures Tokenize(Join(tokens)) == tokens
  {
    var d := Join(tokens);
    assert d[0] == tokens[0][0];
    JoinEndsWith(tokens);
    assert StripLeft(d) == d;
    assert StripRight(d) == d;
    SplitJoin(tokens);
  }

  /** The token list of a path's `d` attribute (core.py:19). */
  function Tokenize(d: string): (tokens: seq<string>)
    ensures |tokens| >= 1
    ensures forall k :: 0 <= k < |tokens| ==> ' ' !in tokens[k]
    ensures Join(tokens) == Strip(d)
  {
    Split(Strip(d))
  }
}
