/** The label pattern `"(.+)":"(.+)"` that the notifier applies to every line
    of a rule message, modelled directly on character sequences with the
    leftmost-first, greedy semantics of Go's `regexp` package and
    `FindAllStringSubmatch(line, 1)` (only the first match is used). */
module LabelPattern {
  import opened Wrappers
  import opened Lines

  /** The two captures of a match: label name and label value. */
  datatype Label = Label(name: string, value: string)

  /** The three characters `":"` start at index `i` of `line`. */
  predicate SepAt(line: string, i: int)
  {
    0 <= i && i + 2 < |line| && line[i] == '"' && line[i + 1] == ':' && line[i + 2] == '"'
  }

  /** The pattern matches `line` with the opening quote at `p`, the separator
      `":"` at `i` and the closing quote at `j`; capture 1 is `line[p+1..i]`,
      capture 2 is `line[i+3..j]`, and both are non-empty. Inside a Line no
      character is a newline, so `.` matches every character of the spans. */
  ghost predicate Matches(line: Line, p: int, i: int, j: int)
  {
    0 <= p && p + 2 <= i && SepAt(line, i) && i + 4 <= j < |line| && line[p] == '"' && line[j] == '"'
  }

  /** The match a backtracking leftmost-first engine reports: the leftmost
      start, then the longest first capture, then the longest second one. */
  ghost predicate LeftmostFirst(line: Line, p: int, i: int, j: int)
  {
    && Matches(line, p, i, j)
    && (forall p', i', j' :: Matches(line, p', i', j') ==> p <= p')
    && (forall i', j' :: Matches(line, p, i', j') ==> i' <= i)
    && (forall j' :: Matches(line, p, i, j') ==> j' <= j)
  }

  /** Index of the first quote at or after `from`. */
  function FirstQuoteFrom(s: string, from: nat): (r: Option<nat>)
    requires from <= |s|
    ensures r.Some? ==> from <= r.value < |s| && s[r.value] == '"'
    ensures r.Some? ==> forall k :: from <= k < r.value ==> s[k] != '"'
    ensures r.None? ==> forall k :: from <= k < |s| ==> s[k] != '"'
    decreases |s| - from
  {
    if from == |s| then None
    else if s[from] == '"' then Some(from)
    else FirstQuoteFrom(s, from + 1)
  }

  /** Index of the last quote strictly before `upto`. */
  function LastQuoteBelow(s: string, upto: nat): (r: Option<nat>)
    requires upto <= |s|
    ensures r.Some? ==> r.value < upto && s[r.value] == '"'
    ensures r.Some? ==> forall k :: r.value < k < upto ==> s[k] != '"'
    ensures r.None? ==> forall k :: 0 <= k < upto ==> s[k] != '"'
  {
    if upto == 0 then None
    else if s[upto - 1] == '"' then Some(upto - 1)
    else LastQuoteBelow(s, upto - 1)
  }

  /** The largest `i` with `lo <= i <= hi` at which `":"` starts. */
  function LastSepBetween(s: string, lo: nat, hi: int): (r: Option<nat>)
    ensures r.Some? ==> lo <= r.value <= hi && SepAt(s, r.value)
    ensures r.Some? ==> forall k :: r.value < k <= hi ==> !SepAt(s, k)
    ensures r.None? ==> forall k :: lo <= k <= hi ==> !SepAt(s, k)
    decreases hi - lo
  {
    if hi < lo then None
    else if SepAt(s, hi) then Some(hi)
    else LastSepBetween(s, lo, hi - 1)
  }

  /** The first match of `"(.+)":"(.+)"` in `line`, if any: it opens at the
      line's first quote, capture 1 runs to the rightmost `":"` that still
      leaves a non-empty capture 2, and capture 2 runs to the last quote. */
  function MatchLabel(line: Line): (r: Option<Label>)
    ensures r.Some? ==> |r.value.name| > 0 && |r.value.value| > 0
  {
    match FirstQuoteFrom(line, 0)
    case None => None
    case Some(p) =>
      match LastQuoteBelow(line, |line|)
      case None => None
      case Some(j) =>
        match LastSepBetween(line, p + 2, j - 4)
        case None => None
        case Some(i) => Some(Label(line[p + 1..i], line[i + 3..j]))
  }

  /** MatchLabel agrees with the regular expression's semantics: it finds
      nothing exactly when the pattern matches nowhere in the line, and
      otherwise it returns the captures of the leftmost-first match. */
  lemma MatchLabelIsLeftmostFirst(line: Line)
    ensures MatchLabel(line).None? <==> forall p, i, j :: !Matches(line, p, i, j)
    ensures MatchLabel(line).Some? ==>
      exists p, i, j :: LeftmostFirst(line, p, i, j) && MatchLabel(line) == Some(Label(line[p + 1..i], line[i + 3..j]))
  {
    var fq := FirstQuoteFrom(line, 0);
    var lq := LastQuoteBelow(line, |line|);
    if fq.None? || lq.None? {
      forall p, i, j ensures !Matches(line, p, i, j) {
      }
    } else {
      var p: int, j: int := fq.value, lq.value;
      var ls := LastSepBetween(line, p + 2, j - 4);
      if ls.None? {
        forall p', i', j' ensures !Matches(line, p', i', j') {
        }
      } else {
        var i := ls.value;
        assert Matches(line, p, i, j);
        forall p', i', j' | Matches(line, p', i', j') ensures p <= p' {
          assert line[p'] == '"';
        }
        forall i', j' | Matches(line, p, i', j') ensures i' <= i {
          assert j' <= j;
        }
        forall j' | Matches(line, p, i, j') ensures j' <= j {
          assert line[j'] == '"';
        }
        assert LeftmostFirst(line, p, i, j);
      }
    }
  }

  /** A line without a quote yields no label. */
  lemma NoQuoteNoLabel(line: Line)
    requires '"' !in line
    ensures MatchLabel(line) == None
  {
  }

  /** The line `"name":"value"` that writes a label in a rule message. */
  function RenderLabel(l: Label): string
  {
    "\"" + l.name + "\":\"" + l.value + "\""
  }

  /** Where the characters of a rendered label sit. */
  lemma RenderLabelLayout(l: Label)
    ensures |RenderLabel(l)| == |l.name| + |l.value| + 5
    ensures RenderLabel(l)[0] == '"'
    ensures forall n :: 1 <= n <= |l.name| ==> RenderLabel(l)[n] == l.name[n - 1]
    ensures SepAt(RenderLabel(l), |l.name| + 1)
    ensures forall n :: |l.name| + 4 <= n < |l.name| + |l.value| + 4 ==> RenderLabel(l)[n] == l.value[n - |l.name| - 4]
    ensures RenderLabel(l)[|l.name| + |l.value| + 4] == '"'
    ensures RenderLabel(l)[1..|l.name| + 1] == l.name
    ensures RenderLabel(l)[|l.name| + 4..|l.name| + |l.value| + 4] == l.value
  {
    var line := RenderLabel(l);
    assert line == ['"'] + l.name + ['"', ':', '"'] + l.value + ['"'];
  }

  /** A rendered label is one line when its parts hold no newline. */
  lemma RenderedLabelIsLine(l: Label)
    requires '\n' !in l.name && '\n' !in l.value
    ensures '\n' !in RenderLabel(l)
  {
  }

  /** In a rendered label whose value holds no quote, no separator starts
      after the one that ends the name. */
  lemma RenderedLabelOneSep(l: Label)
    requires l.value != "" && '"' !in l.value
    ensures forall n :: |l.name| + 1 < n <= |l.name| + |l.value| ==> !SepAt(RenderLabel(l), n)
  {
    RenderLabelLayout(l);
    var k, v, s := |l.name|, |l.value|, RenderLabel(l);
    assert s[k + 2] == ':';
    forall n | k + 1 < n <= k + v ensures !SepAt(s, n) {
      if n >= k + 4 {
        assert s[n] == l.value[n - k - 4];
      } else if n == k + 3 {
        assert s[n + 2] == l.value[1];
      }
    }
  }

  /** A label written as `"name":"value"`, with a non-empty name and value
      that hold no newline and a value without a quote, is read back
      exactly: the name may itself hold quotes. */
  lemma MatchRenderedLabel(l: Label)
    requires l.name != "" && l.value != ""
    requires '"' !in l.value
    requires '\n' !in l.name && '\n' !in l.value
    ensures '\n' !in RenderLabel(l)
    ensures MatchLabel(RenderLabel(l)) == Some(l)
  {
    RenderedLabelIsLine(l);
    RenderLabelLayout(l);
    RenderedLabelOneSep(l);
    var k, v := |l.name|, |l.value|;
    var line: Line := RenderLabel(l);
    assert FirstQuoteFrom(line, 0) == Some(0);
    assert LastQuoteBelow(line, |line|) == Some(k + v + 4);
    assert LastSepBetween(line, 2, k + v) == Some(k + 1);
    assert MatchLabel(line) == Some(Label(line[1..k + 1], line[k + 4..k + v + 4]));
  }
}
