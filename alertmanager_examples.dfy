/** The concrete cases of the notifier's test file, and one line showing the
    greedy reading of a line that holds two pairs. */
module AlertmanagerExamples {
  import opened Wrappers
  import opened Lines
  import opened LabelPattern
  import opened Alertmanager

  /** Empty settings are refused; a URL setting is stored unchanged. */
  lemma NotifierFromSettingsExample()
    ensures NewAlertmanagerNotifier(AlertNotification(0, false, "alertmanager", "alertmanager", map[])).Failure?
    ensures var r := NewAlertmanagerNotifier(AlertNotification(0, false, "alertmanager", "alertmanager",
                       map["url" := JString("http://127.0.0.1:9093/")]));
            r.Success? && r.value.url == "http://127.0.0.1:9093/"
  {
  }

  /** The rule message of the label test, built as the test builds it. */
  const TestMessage: string :=
    "A great description\n" +
    "With some details\n" +
    "\"label1\":\"value1\"\n" +
    "\"label2\":\"value2\"\n" +
    "\"label3\":\"value3\"\n"

  /** Five lines, each ended by a newline, split into themselves and a final
      empty piece. */
  lemma SplitFiveTerminatedLines(a: Line, b: Line, c: Line, d: Line, e: Line)
    ensures SplitLines(a + "\n" + b + "\n" + c + "\n" + d + "\n" + e + "\n") == [a, b, c, d, e, ""]
  {
    var l := [a, b, c, d, e, ""];
    assert JoinLines(l[4..]) == e + "\n" + "";
    assert JoinLines(l[3..]) == d + "\n" + JoinLines(l[4..]);
    assert JoinLines(l[2..]) == c + "\n" + JoinLines(l[3..]);
    assert JoinLines(l[1..]) == b + "\n" + JoinLines(l[2..]);
    assert JoinLines(l) == a + "\n" + JoinLines(l[1..]);
    assert a + "\n" + b + "\n" + c + "\n" + d + "\n" + e + "\n" == JoinLines(l);
    SplitJoin(l);
  }

  /** Six lines of which the middle three yield a label and the others none
      set those three labels, in order. */
  lemma ApplySixLines(init: map<string, string>, l: seq<Line>, x: Label, y: Label, z: Label)
    requires |l| == 6
    requires MatchLabel(l[0]).None? && MatchLabel(l[1]).None? && MatchLabel(l[5]).None?
    requires MatchLabel(l[2]) == Some(x) && MatchLabel(l[3]) == Some(y) && MatchLabel(l[4]) == Some(z)
    ensures ApplyLines(init, l) == init[x.name := x.value][y.name := y.value][z.name := z.value]
  {
    assert l[..1][..0] == [];
    assert ApplyLines(init, l[..1]) == init;
    assert l[..2][..1] == l[..1];
    assert ApplyLines(init, l[..2]) == init;
    assert l[..3][..2] == l[..2];
    assert ApplyLines(init, l[..3]) == init[x.name := x.value];
    assert l[..4][..3] == l[..3];
    assert ApplyLines(init, l[..4]) == init[x.name := x.value][y.name := y.value];
    assert l[..5][..4] == l[..4];
    assert ApplyLines(init, l[..5]) == init[x.name := x.value][y.name := y.value][z.name := z.value];
    assert l[..6][..5] == l[..5];
    assert l[..6] == l;
  }

  /** The five lines of the label test's message. */
  const Prose1: Line := "A great description"
  const Prose2: Line := "With some details"
  const Pair1: Line := "\"label1\":\"value1\""
  const Pair2: Line := "\"label2\":\"value2\""
  const Pair3: Line := "\"label3\":\"value3\""

  /** The label test's message splits into its five lines and the empty
      piece after the final newline. */
  lemma TestMessageLines()
    ensures SplitLines(TestMessage) == [Prose1, Prose2, Pair1, Pair2, Pair3, ""]
  {
    assert TestMessage == Prose1 + "\n" + Prose2 + "\n" + Pair1 + "\n" + Pair2 + "\n" + Pair3 + "\n";
    SplitFiveTerminatedLines(Prose1, Prose2, Pair1, Pair2, Pair3);
  }

  const Label1: Label := Label("label1", "value1")
  const Label2: Label := Label("label2", "value2")
  const Label3: Label := Label("label3", "value3")

  /** Each `"labelN":"valueN"` line yields its label. */
  lemma PairLinesMatch()
    ensures MatchLabel(Pair1) == Some(Label1)
    ensures MatchLabel(Pair2) == Some(Label2)
    ensures MatchLabel(Pair3) == Some(Label3)
  {
    assert Pair1 == RenderLabel(Label1);
    assert Pair2 == RenderLabel(Label2);
    assert Pair3 == RenderLabel(Label3);
    MatchRenderedLabel(Label1);
    MatchRenderedLabel(Label2);
    MatchRenderedLabel(Label3);
  }

  /** The prose lines and the final empty piece yield nothing. */
  lemma ProseLinesMatchNothing()
    ensures MatchLabel(Prose1) == None && MatchLabel(Prose2) == None && MatchLabel("") == None
  {
  }

  /** Three `"labelN":"valueN"` lines below two prose lines give those three
      labels beside `alertname`. */
  lemma LabelsExample()
    ensures Labels(Rule("test_alert", TestMessage, OK))
      == map["alertname" := "test_alert", "label1" := "value1", "label2" := "value2", "label3" := "value3"]
  {
    var init := map["alertname" := "test_alert"];
    assert TestMessage != "";
    assert Labels(Rule("test_alert", TestMessage, OK)) == ApplyLines(init, SplitLines(TestMessage));
    assert ApplyLines(init, SplitLines(TestMessage))
        == init[Label1.name := Label1.value][Label2.name := Label2.value][Label3.name := Label3.value] by {
      TestMessageLines();
      PairLinesMatch();
      ProseLinesMatchNothing();
      ApplySixLines(init, SplitLines(TestMessage), Label1, Label2, Label3);
    }
  }

  /** A line with two pairs yields one label: the first capture stretches to
      the last separator. */
  lemma GreedyMatchExample()
    ensures MatchLabel("\"a\":\"b\" \"c\":\"d\"") == Some(Label("a\":\"b\" \"c", "d"))
  {
    var line: Line := "\"a\":\"b\" \"c\":\"d\"";
    assert FirstQuoteFrom(line, 0) == Some(0);
    assert LastQuoteBelow(line, |line|) == Some(14);
    assert SepAt(line, 10);
    assert LastSepBetween(line, 2, 10) == Some(10);
    assert line[1..10] == "a\":\"b\" \"c";
    assert line[13..14] == "d";
  }

  /** The description is copied and the two matches are listed in order with
      their three-decimal values. */
  lemma AnnotationsExample()
    ensures Annotations(EvalContext("", "", Rule("", "A great description", OK),
      [EvalMatch("foobar", "18.200"), EvalMatch("lulu", "42.800")], None))
      == map["description" := "A great description", "evalMatches" := "foobar : 18.200\nlulu : 42.800\n"]
  {
    var ms := [EvalMatch("foobar", "18.200"), EvalMatch("lulu", "42.800")];
    assert ms[1..][1..] == [];
    assert FormatMatches(ms[1..]) == "lulu : 42.800\n";
    assert FormatMatches(ms) == "foobar : 18.200\nlulu : 42.800\n";
  }
}
