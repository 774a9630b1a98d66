/** The Alertmanager notifier: it turns one alert-rule evaluation into the
    single-alert payload that an Alertmanager receiver accepts on its v1
    alert-push endpoint. */
module Alertmanager {
  import opened Wrappers
  import opened Lines
  import opened LabelPattern

  // ---------------------------------------------------------------------
  // Data model
  // ---------------------------------------------------------------------

  /** The states a rule can be in; only Alerting is treated specially. */
  datatype AlertState = OK | Pending | Alerting | NoData | Paused

  datatype Rule = Rule(name: string, message: string, state: AlertState)

  /** One evaluated metric. `value` is the value already rendered with three
      decimals, as `null.Float.String()` prints it. */
  datatype EvalMatch = EvalMatch(metric: string, value: string)

  /** The evaluation snapshot the notifier reads. The two times are already
      formatted in UTC as RFC 3339 date-time strings; `ruleUrl` is the outcome
      of the rule-URL lookup, None when it failed. */
  datatype EvalContext = EvalContext(
    startTime: string,
    endTime: string,
    rule: Rule,
    evalMatches: seq<EvalMatch>,
    ruleUrl: Option<string>)

  /** One alert object of the Alertmanager wire format; a None generatorURL
      means the key is absent. */
  datatype Alert = Alert(
    startsAt: string,
    endsAt: string,
    generatorURL: Option<string>,
    annotations: map<string, string>,
    labels: map<string, string>)

  /** The webhook command handed to the dispatcher; the body is the JSON
      array of alerts, kept here as a sequence. */
  datatype WebhookRequest = WebhookRequest(url: string, httpMethod: string, body: seq<Alert>)

  /** An opaque error reported by the webhook dispatcher. */
  datatype DispatchError = DispatchError(message: string)

  /** A settings value: only whether it is a JSON string matters here. */
  datatype JsonValue = JString(str: string) | JNonString

  /** The stored notification configuration the notifier is built from. */
  datatype AlertNotification = AlertNotification(
    id: int,
    isDefault: bool,
    name: string,
    notifierType: string,
    settings: map<string, JsonValue>)

  datatype NotifierBase = NotifierBase(
    id: int,
    isDefault: bool,
    name: string,
    notifierType: string,
    settings: map<string, JsonValue>)

  datatype AlertmanagerNotifier = AlertmanagerNotifier(base: NotifierBase, url: string)

  datatype ValidationError = ValidationError(reason: string)

  /** Sentinel end time telling the receiver that the alert is still firing. */
  const ZeroTimestamp: string := "0001-01-01T00:00:00Z"

  const AlertsPath: string := "/api/v1/alerts"

  const MissingUrlReason: string := "Could not find url property in settings"

  // ---------------------------------------------------------------------
  // Construction
  // ---------------------------------------------------------------------

  /** `settings.Get(key).MustString()`: the string stored under `key`, or the
      empty string when the key is absent or holds a non-string value. */
  function MustString(settings: map<string, JsonValue>, key: string): (s: string)
    ensures s != "" ==> key in settings && settings[key] == JString(s)
    ensures key in settings && settings[key].JString? ==> s == settings[key].str
  {
    if key in settings && settings[key].JString? then settings[key].str else ""
  }

  /** The settings carry a usable Alertmanager URL. */
  predicate HasUrl(settings: map<string, JsonValue>)
  {
    "url" in settings && settings["url"].JString? && settings["url"].str != ""
  }

  /** Builds the notifier, refusing a configuration without a URL. */
  function NewAlertmanagerNotifier(model: AlertNotification): (r: Result<AlertmanagerNotifier, ValidationError>)
    ensures r.Failure? <==> !HasUrl(model.settings)
    ensures r.Failure? ==> r.error == ValidationError(MissingUrlReason)
    ensures r.Success? ==> r.value.url == model.settings["url"].str
    ensures r.Success? ==>
      r.value.base == NotifierBase(model.id, model.isDefault, model.name, model.notifierType, model.settings)
  {
    var url := MustString(model.settings, "url");
    if url == "" then Failure(ValidationError(MissingUrlReason))
    else Success(AlertmanagerNotifier(
      NotifierBase(model.id, model.isDefault, model.name, model.notifierType, model.settings), url))
  }

  /** Every evaluation is forwarded, resolved ones included. */
  function ShouldNotify(n: AlertmanagerNotifier, ctx: EvalContext): (r: bool)
    ensures r
  {
    true
  }

  // ---------------------------------------------------------------------
  // Annotations
  // ---------------------------------------------------------------------

  /** One entry of the evalMatches annotation. */
  function FormatMatch(m: EvalMatch): string
  {
    m.metric + " : " + m.value + "\n"
  }

  /** The in-order concatenation of FormatMatch over `ms`. */
  function FormatMatches(ms: seq<EvalMatch>): string
  {
    if ms == [] then "" else FormatMatch(ms[0]) + FormatMatches(ms[1..])
  }

  /** The annotations the notifier attaches to the alert. */
  function Annotations(ctx: EvalContext): map<string, string>
  {
    var described := if ctx.rule.message != "" then map["description" := ctx.rule.message] else map[];
    var formatted := FormatMatches(ctx.evalMatches);
    if formatted != "" then described["evalMatches" := formatted] else described
  }

  /** Formatting distributes over concatenation of match sequences. */
  lemma {:induction false} FormatMatchesAppend(a: seq<EvalMatch>, b: seq<EvalMatch>)
    ensures FormatMatches(a + b) == FormatMatches(a) + FormatMatches(b)
    decreases |a|
  {
    if a == [] {
      assert a + b == b;
    } else {
      assert (a + b)[0] == a[0];
      assert (a + b)[1..] == a[1..] + b;
      FormatMatchesAppend(a[1..], b);
      var h := FormatMatch(a[0]);
      assert h + (FormatMatches(a[1..]) + FormatMatches(b)) == (h + FormatMatches(a[1..])) + FormatMatches(b);
    }
  }

  /** The formatted text is empty exactly when there are no matches. */
  lemma FormatMatchesEmpty(ms: seq<EvalMatch>)
    ensures FormatMatches(ms) == "" <==> ms == []
  {
  }

  /** When metric names and values hold no newline, the evalMatches text
      splits back into one "metric : value" line per match, in order,
      followed by the empty piece after the final newline. */
  lemma {:induction false} FormatMatchesLines(ms: seq<EvalMatch>)
    requires forall k :: 0 <= k < |ms| ==> '\n' !in ms[k].metric && '\n' !in ms[k].value
    ensures |SplitLines(FormatMatches(ms))| == |ms| + 1
    ensures forall k :: 0 <= k < |ms| ==> SplitLines(FormatMatches(ms))[k] == ms[k].metric + " : " + ms[k].value
    ensures SplitLines(FormatMatches(ms))[|ms|] == ""
    decreases |ms|
  {
    if ms == [] {
    } else {
      var head: Line := ms[0].metric + " : " + ms[0].value;
      assert FormatMatches(ms) == head + "\n" + FormatMatches(ms[1..]);
      SplitLinesAround(head, FormatMatches(ms[1..]));
      SplitLine(head);
      FormatMatchesLines(ms[1..]);
    }
  }

  /** `parseAnnotations`: the description is copied verbatim when present,
      and the matches are accumulated line after line. */
  method ParseAnnotations(ctx: EvalContext) returns (annotations: map<string, string>)
    ensures annotations == Annotations(ctx)
  {
    annotations := map[];
    if ctx.rule.message != "" {
      annotations := annotations["description" := ctx.rule.message];
    }
    var formattedMatches := "";
    for n := 0 to |ctx.evalMatches|
      invariant formattedMatches == FormatMatches(ctx.evalMatches[..n])
    {
      var m := ctx.evalMatches[n];
      FormatMatchesAppend(ctx.evalMatches[..n], [m]);
      assert ctx.evalMatches[..n + 1] == ctx.evalMatches[..n] + [m];
      formattedMatches := formattedMatches + m.metric + " : " + m.value + "\n";
    }
    assert ctx.evalMatches[..|ctx.evalMatches|] == ctx.evalMatches;
    if formattedMatches != "" {
      annotations := annotations["evalMatches" := formattedMatches];
    }
  }

  /** The annotation map holds `description` exactly when the message is
      non-empty, then the message verbatim; `evalMatches` exactly when there
      is a match, then their formatted concatenation; and no other key. */
  lemma AnnotationsShape(ctx: EvalContext)
    ensures "description" in Annotations(ctx) <==> ctx.rule.message != ""
    ensures "description" in Annotations(ctx) ==> Annotations(ctx)["description"] == ctx.rule.message
    ensures "evalMatches" in Annotations(ctx) <==> |ctx.evalMatches| > 0
    ensures "evalMatches" in Annotations(ctx) ==> Annotations(ctx)["evalMatches"] == FormatMatches(ctx.evalMatches)
    ensures Annotations(ctx).Keys <= {"description", "evalMatches"}
  {
  }

  // ---------------------------------------------------------------------
  // Labels
  // ---------------------------------------------------------------------

  /** The effect of one message line on the label map. */
  function ApplyLine(labels: map<string, string>, line: Line): map<string, string>
  {
    match MatchLabel(line)
    case None => labels
    case Some(l) => labels[l.name := l.value]
  }

  /** The effect of the lines, applied first to last. */
  function ApplyLines(labels: map<string, string>, lines: seq<Line>): map<string, string>
    decreases |lines|
  {
    if lines == [] then labels
    else ApplyLine(ApplyLines(labels, lines[..|lines| - 1]), lines[|lines| - 1])
  }

  /** The labels the notifier attaches to the alert. */
  function Labels(rule: Rule): map<string, string>
  {
    var labels := map["alertname" := rule.name];
    if rule.message != "" then ApplyLines(labels, SplitLines(rule.message)) else labels
  }

  /** The line yields a label named `key`. */
  ghost predicate Yields(line: Line, key: string)
  {
    MatchLabel(line).Some? && MatchLabel(line).value.name == key
  }

  /** `parseLabels`: start from the rule name and let every line that
      matches the pattern set one label. */
  method ParseLabels(rule: Rule) returns (labels: map<string, string>)
    ensures labels == Labels(rule)
  {
    labels := map[];
    labels := labels["alertname" := rule.name];
    if rule.message != "" {
      var lines := SplitLines(rule.message);
      for n := 0 to |lines|
        invariant labels == ApplyLines(map["alertname" := rule.name], lines[..n])
      {
        assert lines[..n + 1][..n] == lines[..n];
        var m := MatchLabel(lines[n]);
        if m.Some? {
          var labelName := m.value.name;
          var labelValue := m.value.value;
          labels := labels[labelName := labelValue];
        }
      }
      assert lines[..|lines|] == lines;
    }
  }

  /** One line contributes at most one label: any entry it adds or changes
      is the label the line yields. */
  lemma ApplyLineChangesOneKey(labels: map<string, string>, line: Line, key: string)
    requires key in ApplyLine(labels, line)
    requires key !in labels || ApplyLine(labels, line)[key] != labels[key]
    ensures MatchLabel(line) == Some(Label(key, ApplyLine(labels, line)[key]))
  {
  }

  /** A key is present after the lines exactly when it was present before or
      some line yields it. */
  lemma {:induction false} ApplyLinesKeys(labels: map<string, string>, lines: seq<Line>, key: string)
    ensures key in ApplyLines(labels, lines) <==>
      key in labels || exists n :: 0 <= n < |lines| && Yields(lines[n], key)
    decreases |lines|
  {
    if lines != [] {
      var front := lines[..|lines| - 1];
      ApplyLinesKeys(labels, front, key);
      if exists n :: 0 <= n < |front| && Yields(front[n], key) {
        var n :| 0 <= n < |front| && Yields(front[n], key);
        assert lines[n] == front[n];
      }
      if exists n :: 0 <= n < |lines| && Yields(lines[n], key) {
        var n :| 0 <= n < |lines| && Yields(lines[n], key);
        if n < |front| {
          assert front[n] == lines[n];
        }
      }
    }
  }

  /** The last line that yields a key decides its value. */
  lemma {:induction false} ApplyLinesLastWins(labels: map<string, string>, lines: seq<Line>, n: nat)
    requires n < |lines| && MatchLabel(lines[n]).Some?
    requires forall m :: n < m < |lines| ==> !Yields(lines[m], MatchLabel(lines[n]).value.name)
    ensures MatchLabel(lines[n]).value.name in ApplyLines(labels, lines)
    ensures ApplyLines(labels, lines)[MatchLabel(lines[n]).value.name] == MatchLabel(lines[n]).value.value
    decreases |lines|
  {
    if n < |lines| - 1 {
      var front := lines[..|lines| - 1];
      assert front[n] == lines[n];
      forall m | n < m < |front| ensures !Yields(front[m], MatchLabel(front[n]).value.name) {
        assert front[m] == lines[m];
      }
      ApplyLinesLastWins(labels, front, n);
    }
  }

  /** A key that no line yields keeps its earlier value. */
  lemma {:induction false} ApplyLinesUntouched(labels: map<string, string>, lines: seq<Line>, key: string)
    requires key in labels
    requires forall n :: 0 <= n < |lines| ==> !Yields(lines[n], key)
    ensures key in ApplyLines(labels, lines) && ApplyLines(labels, lines)[key] == labels[key]
    decreases |lines|
  {
    if lines != [] {
      var front := lines[..|lines| - 1];
      forall n | 0 <= n < |front| ensures !Yields(front[n], key) {
        assert front[n] == lines[n];
      }
      ApplyLinesUntouched(labels, front, key);
    }
  }

  /** Every entry after the lines was there before, unchanged, or is the
      label some line yields. */
  lemma {:induction false} ApplyLinesProvenance(labels: map<string, string>, lines: seq<Line>, key: string)
    requires key in ApplyLines(labels, lines)
    ensures (key in labels && ApplyLines(labels, lines)[key] == labels[key])
      || exists n :: 0 <= n < |lines| && MatchLabel(lines[n]) == Some(Label(key, ApplyLines(labels, lines)[key]))
    decreases |lines|
  {
    if lines != [] {
      var front := lines[..|lines| - 1];
      var last := lines[|lines| - 1];
      if MatchLabel(last).Some? && MatchLabel(last).value.name == key {
        assert MatchLabel(lines[|lines| - 1]) == Some(Label(key, ApplyLines(labels, lines)[key]));
      } else {
        ApplyLinesProvenance(labels, front, key);
        if exists n :: 0 <= n < |front| && MatchLabel(front[n]) == Some(Label(key, ApplyLines(labels, front)[key])) {
          var n :| 0 <= n < |front| && MatchLabel(front[n]) == Some(Label(key, ApplyLines(labels, front)[key]));
          assert front[n] == lines[n];
        }
      }
    }
  }

  /** The guard on an empty message changes nothing: the single empty piece
      of an empty message matches nothing. */
  lemma LabelsOverAllLines(rule: Rule)
    ensures Labels(rule) == ApplyLines(map["alertname" := rule.name], SplitLines(rule.message))
  {
  }

  /** With an empty message the labels are exactly `alertname = rule.Name`. */
  lemma LabelsOfEmptyMessage(rule: Rule)
    requires rule.message == ""
    ensures Labels(rule) == map["alertname" := rule.name]
  {
  }

  /** The label keys are `alertname` plus the names the message lines yield. */
  lemma LabelsKeys(rule: Rule, key: string)
    ensures key in Labels(rule) <==>
      key == "alertname" || exists n :: 0 <= n < |SplitLines(rule.message)| && Yields(SplitLines(rule.message)[n], key)
  {
    LabelsOverAllLines(rule);
    ApplyLinesKeys(map["alertname" := rule.name], SplitLines(rule.message), key);
  }

  /** The label a line yields survives unless a later line yields the same
      name; this holds for `alertname` too. */
  lemma LabelsLastLineWins(rule: Rule, n: nat)
    requires n < |SplitLines(rule.message)| && MatchLabel(SplitLines(rule.message)[n]).Some?
    requires forall m :: n < m < |SplitLines(rule.message)| ==>
      !Yields(SplitLines(rule.message)[m], MatchLabel(SplitLines(rule.message)[n]).value.name)
    ensures MatchLabel(SplitLines(rule.message)[n]).value.name in Labels(rule)
    ensures Labels(rule)[MatchLabel(SplitLines(rule.message)[n]).value.name] == MatchLabel(SplitLines(rule.message)[n]).value.value
  {
    LabelsOverAllLines(rule);
    ApplyLinesLastWins(map["alertname" := rule.name], SplitLines(rule.message), n);
  }

  /** `alertname` is always present, and is the rule name unless a line
      yields a label of that name. */
  lemma LabelsAlertname(rule: Rule)
    ensures "alertname" in Labels(rule)
    ensures (forall n :: 0 <= n < |SplitLines(rule.message)| ==> !Yields(SplitLines(rule.message)[n], "alertname"))
      ==> Labels(rule)["alertname"] == rule.name
  {
    LabelsOverAllLines(rule);
    var lines := SplitLines(rule.message);
    ApplyLinesKeys(map["alertname" := rule.name], lines, "alertname");
    if forall n :: 0 <= n < |lines| ==> !Yields(lines[n], "alertname") {
      ApplyLinesUntouched(map["alertname" := rule.name], lines, "alertname");
    }
  }

  /** Every label has a non-empty name, and a non-empty value unless it is
      the default `alertname` taken from an empty rule name. */
  lemma LabelsNonEmpty(rule: Rule, key: string)
    requires key in Labels(rule)
    ensures key != ""
    ensures Labels(rule)[key] != "" || (key == "alertname" && Labels(rule)[key] == rule.name)
  {
    LabelsOverAllLines(rule);
    var lines := SplitLines(rule.message);
    ApplyLinesProvenance(map["alertname" := rule.name], lines, key);
  }

  // ---------------------------------------------------------------------
  // Notify
  // ---------------------------------------------------------------------

  /** `Notify`: builds the single alert of the evaluation, wraps it in a
      one-element array, posts it to `<url>/api/v1/alerts` through `send`
      and returns what `send` reports, unchanged. */
  method Notify(n: AlertmanagerNotifier, ctx: EvalContext, send: WebhookRequest -> Option<DispatchError>)
    returns (cmd: WebhookRequest, err: Option<DispatchError>)
    ensures cmd.url == n.url + AlertsPath && cmd.httpMethod == "POST"
    ensures |cmd.body| == 1
    ensures cmd.body[0].startsAt == ctx.startTime
    ensures ctx.rule.state == Alerting ==> cmd.body[0].endsAt == ZeroTimestamp
    ensures ctx.rule.state != Alerting ==> cmd.body[0].endsAt == ctx.endTime
    ensures cmd.body[0].generatorURL == ctx.ruleUrl
    ensures cmd.body[0].annotations == Annotations(ctx)
    ensures cmd.body[0].labels == Labels(ctx.rule)
    ensures err == send(cmd)
  {
    var startsAt := ctx.startTime;
    var endsAt: string;
    if ctx.rule.state == Alerting {
      endsAt := ZeroTimestamp;
    } else {
      endsAt := ctx.endTime;
    }
    var generatorURL: Option<string> := None;
    if ctx.ruleUrl.Some? {
      generatorURL := Some(ctx.ruleUrl.value);
    }
    var annotations := ParseAnnotations(ctx);
    var labels := ParseLabels(ctx.rule);
    var alert := Alert(startsAt, endsAt, generatorURL, annotations, labels);
    cmd := WebhookRequest(n.url + AlertsPath, "POST", [alert]);
    err := send(cmd);
  }
}
