/**
 * The few Rust string operations the filtering and formatting code relies
 * on, over `string == seq<char>`.
 */
module Strings {
  import opened Common

  /** `char::is_ascii_uppercase`. */
  predicate IsAsciiUpper(c: char)
  {
    'A' <= c <= 'Z'
  }

  /** `char::is_ascii_lowercase`. */
  predicate IsAsciiLower(c: char)
  {
    'a' <= c <= 'z'
  }

  /** `char::to_ascii_lowercase`. */
  function ToAsciiLower(c: char): char
  {
    if IsAsciiUpper(c) then (c as int + 32) as char else c
  }

  /** `char::to_ascii_uppercase`. */
  function ToAsciiUpper(c: char): char
  {
    if IsAsciiLower(c) then (c as int - 32) as char else c
  }

  /** `str::to_ascii_lowercase`: every character folded on its own, the length kept. */
  function AsciiLowercase(s: string): (r: string)
    ensures |r| == |s|
    ensures forall k :: 0 <= k < |r| ==> !IsAsciiUpper(r[k])
    ensures forall k :: 0 <= k < |s| && !IsAsciiUpper(s[k]) ==> r[k] == s[k]
  {
    seq(|s|, i requires 0 <= i < |s| => ToAsciiLower(s[i]))
  }

  /** Text without ASCII capitals is its own lower case. */
  lemma LowercaseOfLower(s: string)
    requires forall k :: 0 <= k < |s| ==> !IsAsciiUpper(s[k])
    ensures AsciiLowercase(s) == s
  {
  }

  /** `str::contains` with a string pattern: `t` occurs somewhere in `s`. */
  function Contains(s: string, t: string): (r: bool)
    ensures r <==> exists i :: 0 <= i <= |s| && t <= s[i..]
    decreases |s|
  {
    if t <= s then assert s[0..] == s; true
    else if s == [] then false
    else
      var r := Contains(s[1..], t);
      assert forall i :: 1 <= i <= |s| ==> s[1..][i - 1..] == s[i..];
      r
  }

  /** Every string contains the empty string. */
  lemma ContainsEmpty(s: string)
    ensures Contains(s, [])
  {
  }

  /**
   * `s.split('/').last()`: the text after the last `'/'`, the whole of `s`
   * when it has none, and `""` when `s` ends in `'/'`. `split` always yields
   * at least one piece, so a last piece always exists.
   */
  function LastSegment(s: string): (r: string)
    ensures |r| <= |s| && r == s[|s| - |r|..]
    ensures '/' !in r
    ensures |r| < |s| ==> s[|s| - |r| - 1] == '/'
  {
    if s == [] then []
    else if s[|s| - 1] == '/' then []
    else LastSegment(s[..|s| - 1]) + [s[|s| - 1]]
  }

  /** The last segment of `x + "/" + y` is the last segment of `y`. */
  lemma {:induction false} LastSegmentAfterSeparator(x: string, y: string)
    ensures LastSegment(x + "/" + y) == LastSegment(y)
    decreases |y|
  {
    if y == [] {
      assert (x + "/" + y)[|x + "/" + y| - 1] == '/';
    } else {
      var s := x + "/" + y;
      assert s[..|s| - 1] == x + "/" + y[..|y| - 1];
      assert s[|s| - 1] == y[|y| - 1];
      LastSegmentAfterSeparator(x, y[..|y| - 1]);
    }
  }

  /** `str::strip_prefix`: the rest of `s` when it starts with `p`. */
  function StripPrefix(s: string, p: string): (r: Option<string>)
    ensures r.Some? <==> p <= s
    ensures r.Some? ==> s == p + r.value
  {
    if p <= s then Some(s[|p|..]) else None
  }

  /** `lines.join("\n")`. */
  function JoinLines(lines: seq<string>): (r: string)
    ensures lines == [] ==> r == []
    ensures lines != [] ==> lines[0] <= r
    ensures |lines| > 1 ==> |lines[0]| < |r| && r[|lines[0]|] == '\n'
  {
    if |lines| == 0 then ""
    else if |lines| == 1 then lines[0]
    else lines[0] + "\n" + JoinLines(lines[1..])
  }

  /** `s.split('\n')`: the pieces between newlines; always at least one. */
  function SplitLines(s: string): (r: seq<string>)
    ensures |r| >= 1
  {
    if s == [] then [""]
    else
      var rest := SplitLines(s[1..]);
      if s[0] == '\n' then [""] + rest else [[s[0]] + rest[0]] + rest[1..]
  }

  /** A piece without newlines followed by `"\n"` splits off as one line. */
  lemma {:induction false} SplitLinesAfterLine(a: string, b: string)
    requires '\n' !in a
    ensures SplitLines(a + "\n" + b) == [a] + SplitLines(b)
    ensures SplitLines(a) == [a]
  {
    if a != [] {
      SplitLinesAfterLine(a[1..], b);
      assert (a + "\n" + b)[1..] == a[1..] + "\n" + b;
      assert (a + "\n" + b)[0] == a[0] != '\n';
      assert [a[0]] + a[1..] == a;
    } else {
      assert a + "\n" + b == "\n" + b;
      assert ("\n" + b)[1..] == b;
    }
  }

  /**
   * Joining lines that contain no newline and splitting the text again gives
   * the lines back, so the joined text determines the list (given at least
   * one line: both `[]` and `[""]` join to `""`).
   */
  lemma {:induction false} SplitJoinLines(lines: seq<string>)
    requires |lines| >= 1
    requires forall k :: 0 <= k < |lines| ==> '\n' !in lines[k]
    ensures SplitLines(JoinLines(lines)) == lines
  {
    if |lines| == 1 {
      SplitLinesAfterLine(lines[0], "");
      assert lines == [lines[0]];
    } else {
      var rest := lines[1..];
      assert forall k :: 0 <= k < |rest| ==> rest[k] == lines[k + 1];
      SplitJoinLines(rest);
      assert JoinLines(lines) == lines[0] + "\n" + JoinLines(rest);
      SplitLinesAfterLine(lines[0], JoinLines(rest));
      assert lines == [lines[0]] + rest;
    }
  }
}
