/** Splitting a message into lines the way `strings.Split(message, "\n")`
    does: n newline characters give n + 1 pieces, and the empty string
    gives one empty piece. */
module Lines {

  /** A string holding no newline character: one piece of a split. */
  type Line = s: string | '\n' !in s

  /** Number of newline characters in `s`. */
  function NewlineCount(s: string): nat
  {
    if s == [] then 0 else (if s[0] == '\n' then 1 else 0) + NewlineCount(s[1..])
  }

  /** `strings.Split(s, "\n")`. */
  function SplitLines(s: string): (lines: seq<Line>)
    ensures |lines| == NewlineCount(s) + 1
    decreases |s|
  {
    if s == [] then [""]
    else
      var rest := SplitLines(s[1..]);
      if s[0] == '\n' then [""] + rest
      else [[s[0]] + rest[0]] + rest[1..]
  }

  /** `strings.Join(lines, "\n")`, the inverse of SplitLines. */
  function JoinLines(lines: seq<string>): string
  {
    if lines == [] then ""
    else if |lines| == 1 then lines[0]
    else lines[0] + "\n" + JoinLines(lines[1..])
  }

  /** A newline-free string splits into itself alone. */
  lemma {:induction false} SplitLine(l: Line)
    ensures SplitLines(l) == [l]
    decreases |l|
  {
    if l != [] {
      var tail: Line := l[1..];
      SplitLine(tail);
      assert [l[0]] + tail == l;
    }
  }

  /** Splitting distributes over a newline: the pieces of `x + "\n" + y` are
      the pieces of `x` followed by those of `y`. */
  lemma {:induction false} SplitLinesAround(x: string, y: string)
    ensures SplitLines(x + "\n" + y) == SplitLines(x) + SplitLines(y)
    decreases |x|
  {
    if x == [] {
      assert x + "\n" + y == ['\n'] + y;
      assert (['\n'] + y)[1..] == y;
    } else {
      var s := x + "\n" + y;
      assert s[0] == x[0];
      assert s[1..] == x[1..] + "\n" + y;
      SplitLinesAround(x[1..], y);
    }
  }

  /** Joining the pieces of a split gives back the original string. */
  lemma {:induction false} JoinSplit(s: string)
    ensures JoinLines(SplitLines(s)) == s
    decreases |s|
  {
    if s != [] {
      var rest := SplitLines(s[1..]);
      JoinSplit(s[1..]);
      if s[0] == '\n' {
        assert SplitLines(s) == [""] + rest;
        assert ([""] + rest)[1..] == rest;
        assert s == "" + "\n" + s[1..];
      } else {
        var out := [[s[0]] + rest[0]] + rest[1..];
        assert SplitLines(s) == out;
        if |rest| == 1 {
          assert s[1..] == rest[0];
          assert s == [s[0]] + s[1..];
        } else {
          assert out[1..] == rest[1..];
          assert JoinLines(rest) == rest[0] + "\n" + JoinLines(rest[1..]);
          assert s == [s[0]] + s[1..];
        }
      }
    }
  }

  /** Splitting the join of one or more newline-free strings gives back
      exactly those strings. */
  lemma {:induction false} SplitJoin(lines: seq<Line>)
    requires |lines| >= 1
    ensures SplitLines(JoinLines(lines)) == lines
    decreases |lines|
  {
    if |lines| == 1 {
      SplitLine(lines[0]);
    } else {
      SplitLinesAround(lines[0], JoinLines(lines[1..]));
      SplitLine(lines[0]);
      SplitJoin(lines[1..]);
      assert [lines[0]] + lines[1..] == lines;
    }
  }
}
