# Alertmanager notifier

A Dafny model of Grafana's Alertmanager notifier
(`pkg/services/alerting/notifiers/alertmanager.go`). The notifier turns one
alert-rule evaluation into the payload an Alertmanager receiver accepts on
its v1 push endpoint. That payload is a one-element array holding a single
alert with:

- `startsAt`, the start time;
- `endsAt`, the zero timestamp `0001-01-01T00:00:00Z` while the rule is
  Alerting, and the end time otherwise;
- `generatorURL`, present only when the rule URL could be resolved;
- `annotations`: `description` (the message) and `evalMatches` (one
  `metric : value` line per match);
- `labels`: `alertname` plus extra labels written as `"key":"value"` in the
  lines of the rule message.

The notifier posts the payload to `<url>/api/v1/alerts` and returns the
dispatcher's error unchanged. It is built from stored settings and refuses
a configuration without a non-empty `url` string.

Files and modules:

- `wrappers.dfy` (`Wrappers`): `Option` and `Result`.
- `lines.dfy` (`Lines`): `strings.Split(message, "\n")` as `SplitLines`, its
  inverse `JoinLines`, and the round trips between them.
- `label_pattern.dfy` (`LabelPattern`): the pattern `"(.+)":"(.+)"` as the
  function `MatchLabel` on character sequences. `LeftmostFirst` states
  declaratively which match Go's leftmost-first, greedy engine reports, and a
  lemma proves that `MatchLabel` returns exactly that match.
- `alertmanager.dfy` (`Alertmanager`): the data model and everything else.
  `ParseLabels` and `ParseAnnotations` keep the source's loops and are
  proved equal to the functions `Labels` and `Annotations`, about which the
  lemmas state what they guarantee. `Notify` builds the alert field by
  field, and its ensures state each field.
- `alertmanager_examples.dfy` (`AlertmanagerExamples`): the cases from
  `alertmanager_test.go`, plus one line that shows the greedy reading.

Decisions:

- Inputs the core cannot compute are parameters of the model:
  - the two times, already formatted as RFC 3339 (section 5.6) `date-time`
    strings in UTC;
  - each match value, already rendered with three decimals by
    `null.Float.String()`;
  - the rule-URL lookup, as an `Option<string>`;
  - the webhook dispatcher, as a function parameter `send` from the request
    to an optional error.
- The JSON body is modelled as the sequence of `Alert` records it encodes.
- A settings value is either a JSON string or something else
  (`JNonString`). `MustString` gives `""` for a missing key and for any
  non-string value, as simplejson's `MustString()` does.
- Strings are sequences of characters. Go's `regexp` works on UTF-8 runes,
  so this matches the source on valid UTF-8 text.
- The notifier builds one alert per rule, never one per match
  (alertmanager.go:57-59), so it sets no `metric` label and copies no match
  tags.

## Model

| member | source | states |
|---|---|---|
| `Lines.SplitLines` | pkg/services/alerting/notifiers/alertmanager.go:118 | splitting on `"\n"` gives one more piece than there are newlines, and no piece contains a newline |
| `Lines.JoinSplit` | pkg/services/alerting/notifiers/alertmanager.go:118 | re-joining the pieces with `"\n"` gives back the message exactly, so the split loses no character |
| `Lines.SplitJoin` | pkg/services/alerting/notifiers/alertmanager.go:118 | splitting the join of one or more newline-free lines gives back exactly those lines |
| `Lines.SplitLinesAround` | pkg/services/alerting/notifiers/alertmanager.go:118 | the pieces of `x + "\n" + y` are the pieces of `x` followed by the pieces of `y` |
| `Lines.SplitLine` | pkg/services/alerting/notifiers/alertmanager.go:118 | a newline-free string splits into itself alone |
| `LabelPattern.MatchLabel` | pkg/services/alerting/notifiers/alertmanager.go:117-123 | a line yields at most one label, and both its name and its value are non-empty |
| `LabelPattern.MatchLabelIsLeftmostFirst` | pkg/services/alerting/notifiers/alertmanager.go:117-119 | `MatchLabel` finds no label exactly when `"(.+)":"(.+)"` matches nowhere in the line; otherwise its captures are those of the leftmost match with the longest first capture and then the longest second capture |
| `LabelPattern.NoQuoteNoLabel` | pkg/services/alerting/notifiers/alertmanager.go:119-120 | a line without a quote contributes no label |
| `LabelPattern.RenderLabelLayout` | pkg/services/alerting/notifiers/alertmanager.go:117 | where the quotes, the separator and the two captures sit in `"name":"value"` |
| `LabelPattern.MatchRenderedLabel` | pkg/services/alerting/notifiers/alertmanager.go:117-123 | a label written as `"name":"value"` is read back exactly, when name and value are non-empty and hold no newline and the value holds no quote (the name may hold quotes) |
| `Alertmanager.MustString` | pkg/services/alerting/notifiers/alertmanager.go:32 | a non-empty result is the string stored under the key, and a stored string is returned as is |
| `Alertmanager.NewAlertmanagerNotifier` | pkg/services/alerting/notifiers/alertmanager.go:31-42 | construction fails with `ValidationError("Could not find url property in settings")` exactly when the `url` setting is missing, not a string, or empty; otherwise the stored URL is the setting unchanged and the base fields are copied from the notification |
| `Alertmanager.ShouldNotify` | pkg/services/alerting/notifiers/alertmanager.go:50-52 | every evaluation is forwarded, resolved ones included |
| `Alertmanager.FormatMatchesAppend` | pkg/services/alerting/notifiers/alertmanager.go:101-104 | the evalMatches text of a concatenation of match lists is the concatenation of their texts, so the entries appear in match order |
| `Alertmanager.FormatMatchesEmpty` | pkg/services/alerting/notifiers/alertmanager.go:101-105 | the evalMatches text is empty exactly when there are no matches |
| `Alertmanager.FormatMatchesLines` | pkg/services/alerting/notifiers/alertmanager.go:103 | when metric names and values hold no newline, the evalMatches text splits back into `metric : value` for each match in order, followed by one empty piece |
| `Alertmanager.ParseAnnotations` | pkg/services/alerting/notifiers/alertmanager.go:94-110 | the loop that accumulates the formatted matches produces exactly `Annotations(ctx)` |
| `Alertmanager.AnnotationsShape` | pkg/services/alerting/notifiers/alertmanager.go:94-110 | `description` is present exactly when the message is non-empty, and is then the message verbatim; `evalMatches` is present exactly when there is at least one match, and is then the in-order concatenation of `metric : value\n`; there are no other keys |
| `Alertmanager.ParseLabels` | pkg/services/alerting/notifiers/alertmanager.go:112-128 | the loop over message lines produces exactly `Labels(rule)`, which applies the lines first to last to `{alertname: rule.Name}` |
| `Alertmanager.ApplyLineChangesOneKey` | pkg/services/alerting/notifiers/alertmanager.go:119-123 | any entry a line adds or changes is the one label that line yields, so each line sets at most one label |
| `Alertmanager.ApplyLinesKeys` | pkg/services/alerting/notifiers/alertmanager.go:118-125 | after the lines, a key is present exactly when it was present before or some line yields it |
| `Alertmanager.ApplyLinesLastWins` | pkg/services/alerting/notifiers/alertmanager.go:118-125 | the last line that yields a name decides that label's value |
| `Alertmanager.ApplyLinesUntouched` | pkg/services/alerting/notifiers/alertmanager.go:118-125 | a key that no line yields keeps its earlier value |
| `Alertmanager.ApplyLinesProvenance` | pkg/services/alerting/notifiers/alertmanager.go:118-125 | every entry after the lines is an unchanged earlier entry or exactly the label some line yields |
| `Alertmanager.LabelsOverAllLines` | pkg/services/alerting/notifiers/alertmanager.go:116-118 | skipping the loop for an empty message changes nothing: the labels equal the result of applying every split line |
| `Alertmanager.LabelsOfEmptyMessage` | pkg/services/alerting/notifiers/alertmanager.go:113-116 | with an empty message the labels are exactly `{alertname: rule.Name}` |
| `Alertmanager.LabelsKeys` | pkg/services/alerting/notifiers/alertmanager.go:113-125 | the label keys are exactly `alertname` plus the names some message line yields |
| `Alertmanager.LabelsLastLineWins` | pkg/services/alerting/notifiers/alertmanager.go:114-123 | a line's label survives with its value unless a later line yields the same name, and this can overwrite `alertname` |
| `Alertmanager.LabelsAlertname` | pkg/services/alerting/notifiers/alertmanager.go:114-125 | `alertname` is always present, and it equals the rule name whenever no line yields the name `alertname` |
| `Alertmanager.LabelsNonEmpty` | pkg/services/alerting/notifiers/alertmanager.go:113-125 | every label name is non-empty, and every value is non-empty except an `alertname` taken from an empty rule name |
| `Alertmanager.Notify` | pkg/services/alerting/notifiers/alertmanager.go:54-92 | posts with method `POST` to `Url + "/api/v1/alerts"` a body of exactly one alert, whose fields are: `startsAt` is the start time; `endsAt` is `0001-01-01T00:00:00Z` when the state is Alerting and the end time otherwise; `generatorURL` is present exactly when the URL lookup succeeded; the annotations and labels are those specified above; the dispatcher's outcome is returned unchanged |
| `AlertmanagerExamples.NotifierFromSettingsExample` | pkg/services/alerting/notifiers/alertmanager_test.go:17-50 | empty settings are refused; `{"url": "http://127.0.0.1:9093/"}` gives a notifier whose URL is exactly that string |
| `AlertmanagerExamples.TestMessageLines` | pkg/services/alerting/notifiers/alertmanager_test.go:57-61 | the test message splits into its five lines and a final empty piece |
| `AlertmanagerExamples.PairLinesMatch` | pkg/services/alerting/notifiers/alertmanager_test.go:59-61 | each `"labelN":"valueN"` line yields `labelN = valueN` |
| `AlertmanagerExamples.LabelsExample` | pkg/services/alerting/notifiers/alertmanager_test.go:54-72 | the test rule's labels are exactly `alertname=test_alert`, `label1..3=value1..3` |
| `AlertmanagerExamples.GreedyMatchExample` | pkg/services/alerting/notifiers/alertmanager.go:117-119 | a line holding two pairs, `"a":"b" "c":"d"`, yields the single label `a":"b" "c` = `d` |
| `AlertmanagerExamples.AnnotationsExample` | pkg/services/alerting/notifiers/alertmanager_test.go:75-90 | the test message and the two matches give `description = A great description` and `evalMatches = foobar : 18.200\nlulu : 42.800\n` |

## Left out

- Notifier registration in `init` and the HTML options template
  (alertmanager.go:15-29): they are global side effects and UI markup.
- The message bus and the HTTP POST (alertmanager.go:86): these are external
  I/O. The model passes the dispatcher in as the function `send`, and
  delivery itself is not modelled.
- Logging (`log.New`, `Info`, `Error`): it has no observable behaviour here.
- JSON construction and marshalling with simplejson (alertmanager.go:60,
  77-78): the body is kept as the sequence of `Alert` records it encodes.
- Time formatting to RFC 3339 and the three-decimal rendering of match
  values: the model takes both as ready-made strings.
- `GetRuleUrl`: it is a call into the evaluation context, which is not part
  of this model. The model takes its outcome as an `Option<string>`.
- `NewNotifierBase` lives in a file that is not part of this model. The model
  takes it to copy the id, default flag, name, type and settings into the
  base record.
- The rule states other than Alerting: the model lists `OK`, `Pending`,
  `NoData` and `Paused`. The models package that defines them is not part of
  this model, and only Alerting is treated specially.
- Per-match alerts, a `metric` label, tag labels: this version of the
  notifier does none of them (alertmanager.go:57-59).
- Go regexp on invalid UTF-8 (a bad byte is read as U+FFFD): strings are
  modelled as sequences of characters.
