// The generated panels: which recorded metric names become which targets, and how many.
// entries is what one Range over the metrics-names map visits, in whatever order.
module Dashboard {
  import opened Common
  import opened Strings
  import opened Metrics
  import Responses
  import Sanitize

  // An expression is a metric name or one of the two templates with the dashboard's variables
  // for namespace and cronjob; a legend is a text or one of the three fixed ones.
  datatype Expr = Metric(name: string) | CronjobFailures | CronjobCompletions

  datatype Legend = Text(text: string) | MetricNameLegend | JobNameLegend | FailureTotalLegend

  datatype Target = Target(expr: Expr, legend: Legend)

  datatype Kind = Row(cronjob: string) | OverviewRow | TimeSeries | BarGauge | StateTimeline | StatusHistory | Plain

  datatype Panel = Panel(kind: Kind, targets: seq<Target>)

  datatype NamesEntry = NamesEntry(cronjob: string, names: seq<string>)

  const FAILURE_SUFFIX := "failure_total"
  const DURATION_SUFFIX := "duration_seconds"

  // The two suffix patterns; $ without flags matches only the end of the text.
  predicate IsFailure(name: string) { HasSuffix(name, FAILURE_SUFFIX) }
  predicate IsDuration(name: string) { HasSuffix(name, DURATION_SUFFIX) }

  function FailureLegend(name: string): string { TrimSuffix(name, "_" + FAILURE_SUFFIX) }

  function FailureTarget(name: string): Target { Target(Metric(name), Text(FailureLegend(name))) }

  // Go's loops with one append under a condition.
  function Select<A, B>(p: A -> bool, f: A -> B, s: seq<A>): seq<B> { Map(f, Filter(p, s)) }

  lemma FilterOneMore<A>(p: A -> bool, s: seq<A>, i: nat)
    requires i < |s|
    ensures Filter(p, s[..i + 1]) == Filter(p, s[..i]) + (if p(s[i]) then [s[i]] else [])
  {
    assert s[..i + 1] == s[..i] + [s[i]];
    FilterAppend(p, s[..i], s[i]);
  }

  lemma SelectOneMore<A, B>(p: A -> bool, f: A -> B, s: seq<A>, i: nat)
    requires i < |s|
    ensures Select(p, f, s[..i + 1]) == Select(p, f, s[..i]) + (if p(s[i]) then [f(s[i])] else [])
  {
    FilterOneMore(p, s, i);
  }

  function FailuresOf(e: NamesEntry): seq<Target> { Select(IsFailure, FailureTarget, e.names) }

  function FailureTargets(entries: seq<NamesEntry>): seq<Target> { FlatMap(FailuresOf, entries) }

  // The inner loop of collectFailureTargets.
  method AppendFailures(targets: seq<Target>, names: seq<string>) returns (r: seq<Target>)
    ensures r == targets + Select(IsFailure, FailureTarget, names)
  {
    r := targets;
    for k := 0 to |names|
      invariant r == targets + Select(IsFailure, FailureTarget, names[..k])
    {
      SelectOneMore(IsFailure, FailureTarget, names, k);
      if IsFailure(names[k]) {
        r := r + [FailureTarget(names[k])];
      }
    }
    assert names[..|names|] == names;
  }

  // collectFailureTargets
  method CollectFailureTargets(entries: seq<NamesEntry>) returns (targets: seq<Target>)
    ensures targets == FailureTargets(entries)
  {
    targets := [];
    for i := 0 to |entries|
      invariant targets == FailureTargets(entries[..i])
    {
      targets := AppendFailures(targets, entries[i].names);
      assert entries[..i + 1][..i] == entries[..i];
    }
    assert entries[..|entries|] == entries;
  }

  // ---------- the row of the first visited cronjob ----------

  function DurationTarget(name: string): Target { Target(Metric(name), JobNameLegend) }

  function TotalTarget(name: string): Target {
    Target(if IsFailure(name) then CronjobFailures else CronjobCompletions, MetricNameLegend)
  }

  predicate NotDuration(name: string) { !IsDuration(name) }

  predicate FailureOnly(name: string) { !IsDuration(name) && IsFailure(name) }

  function IfAny(kind: Kind, targets: seq<Target>): seq<Panel> {
    if targets != [] then [Panel(kind, targets)] else []
  }

  function RowPanels(e: NamesEntry): seq<Panel> {
    [Panel(Row(e.cronjob), [])]
    + IfAny(Plain, Select(NotDuration, TotalTarget, e.names))
    + IfAny(Plain, Select(IsDuration, DurationTarget, e.names))
    + (if Filter(FailureOnly, e.names) != []
       then [Panel(StateTimeline, [Target(CronjobFailures, FailureTotalLegend)])] else [])
  }

  method SplitNames(names: seq<string>) returns (durations: seq<Target>, totals: seq<Target>, hasFailure: bool)
    ensures durations == Select(IsDuration, DurationTarget, names)
    ensures totals == Select(NotDuration, TotalTarget, names)
    ensures hasFailure == (Filter(FailureOnly, names) != [])
  {
    durations, totals, hasFailure := [], [], false;
    for i := 0 to |names|
      invariant durations == Select(IsDuration, DurationTarget, names[..i])
      invariant totals == Select(NotDuration, TotalTarget, names[..i])
      invariant hasFailure == (Filter(FailureOnly, names[..i]) != [])
    {
      SelectOneMore(IsDuration, DurationTarget, names, i);
      SelectOneMore(NotDuration, TotalTarget, names, i);
      FilterOneMore(FailureOnly, names, i);
      if IsDuration(names[i]) {
        durations := durations + [DurationTarget(names[i])];
      } else {
        var expr := CronjobCompletions;
        if IsFailure(names[i]) {
          expr := CronjobFailures;
          hasFailure := true;
        }
        totals := totals + [Target(expr, MetricNameLegend)];
      }
    }
    assert names[..|names|] == names;
  }

  // One call of the callback of individualPanelsGenerator.
  method AppendRow(e: NamesEntry) returns (panels: seq<Panel>)
    ensures panels == RowPanels(e)
  {
    panels := [Panel(Row(e.cronjob), [])];
    var durations, totals, hasFailure := SplitNames(e.names);
    if |totals| > 0 {
      panels := panels + [Panel(Plain, totals)];
    }
    if |durations| > 0 {
      panels := panels + [Panel(Plain, durations)];
    }
    if hasFailure {
      panels := panels + [Panel(StateTimeline, [Target(CronjobFailures, FailureTotalLegend)])];
    }
  }

  // generateCronJobRowPanels: once there are panels the callback adds no more.
  method CronJobRowPanels(entries: seq<NamesEntry>) returns (panels: seq<Panel>)
    ensures panels == FirstRow(entries)
  {
    panels := [];
    for i := 0 to |entries|
      invariant panels == if i == 0 then [] else RowPanels(entries[0])
    {
      if |panels| == 0 {
        panels := AppendRow(entries[i]);
      }
    }
  }

  function FirstRow(entries: seq<NamesEntry>): seq<Panel> {
    if entries == [] then [] else RowPanels(entries[0])
  }

  // ---------- all panels ----------

  // strings.ReplaceAll(s, "_", " ")
  function Spaced(s: string): string { Map((c: char) => if c == '_' then ' ' else c, s) }

  function SeriesTarget(metricPrefix: string): string -> Target {
    (name: string) => Target(Metric(metricPrefix + "_" + name), MetricNameLegend)
  }

  function BarTarget(metricPrefix: string): string -> Target {
    (name: string) => Target(Metric(metricPrefix + "_" + name), Text(Spaced(TrimSuffix(name, "_total"))))
  }

  function Overview(
    metricPrefix: string, totals: seq<string>, visit1: seq<NamesEntry>, visit2: seq<NamesEntry>): seq<Panel>
  {
    [Panel(OverviewRow, []),
     Panel(TimeSeries, Map(SeriesTarget(metricPrefix), totals)),
     Panel(BarGauge, Map(BarTarget(metricPrefix), totals)),
     Panel(StateTimeline, FailureTargets(visit1)),
     Panel(StatusHistory, FailureTargets(visit2))]
  }

  // The three ranges over the map may each visit it in their own order.
  function Panels(
    metricPrefix: string, totals: seq<string>,
    visit1: seq<NamesEntry>, visit2: seq<NamesEntry>, visit3: seq<NamesEntry>): seq<Panel>
  {
    Overview(metricPrefix, totals, visit1, visit2) + FirstRow(visit3)
  }

  // The loop over TotalMetricNames, run once for the series and once for the bars.
  method AppendTargets(target: string -> Target, names: seq<string>) returns (r: seq<Target>)
    ensures r == Map(target, names)
  {
    r := [];
    for i := 0 to |names|
      invariant r == Map(target, names[..i])
    {
      r := r + [target(names[i])];
    }
    assert names[..|names|] == names;
  }

  method GeneratePanels(
    metricPrefix: string, totals: seq<string>,
    visit1: seq<NamesEntry>, visit2: seq<NamesEntry>, visit3: seq<NamesEntry>)
    returns (panels: seq<Panel>)
    ensures panels == Panels(metricPrefix, totals, visit1, visit2, visit3)
  {
    var series := AppendTargets(SeriesTarget(metricPrefix), totals);
    var bars := AppendTargets(BarTarget(metricPrefix), totals);
    var timeline := CollectFailureTargets(visit1);
    var history := CollectFailureTargets(visit2);
    var rows := CronJobRowPanels(visit3);
    panels := [Panel(OverviewRow, []), Panel(TimeSeries, series), Panel(BarGauge, bars),
               Panel(StateTimeline, timeline), Panel(StatusHistory, history)] + rows;
  }

  // ---------- counting ----------

  function TargetsOf(p: Panel): nat { |p.targets| }

  // The entries are those of the map, each once.
  ghost predicate Visits(entries: seq<NamesEntry>, names: map<string, seq<string>>) {
    && (forall i, j :: 0 <= i < j < |entries| ==> entries[i].cronjob != entries[j].cronjob)
    && (forall i :: 0 <= i < |entries| ==> entries[i].cronjob in names && entries[i].names == names[entries[i].cronjob])
    && (forall c :: c in names ==> exists i :: 0 <= i < |entries| && entries[i].cronjob == c)
  }

  predicate Recorded(metricPrefix: string, entries: seq<NamesEntry>) {
    forall i :: 0 <= i < |entries| ==> entries[i].names == RecordedNames(metricPrefix, entries[i].cronjob)
  }

  lemma EndsLike(p: string, c: string, tail: string, suffix: string)
    requires |suffix| <= |tail|
    ensures HasSuffix(p + "_" + (c + tail), suffix) <==> HasSuffix(tail, suffix)
    ensures p + "_" + (c + tail) == p + "_" + c + tail
    ensures TrimSuffix(p + "_" + (c + tail), tail) == p + "_" + c
  {
    var s := p + "_" + (c + tail);
    assert s == p + "_" + c + tail;
    assert s[|s| - |suffix|..] == tail[|tail| - |suffix|..];
    assert s[|s| - |tail|..] == tail;
    assert s[..|s| - |tail|] == p + "_" + c;
  }

  lemma LastChars(s: string, suffix: string)
    requires HasSuffix(s, suffix)
    ensures forall i: nat :: 0 < i <= |suffix| ==> FromEnd(s, i) == FromEnd(suffix, i)
  {
    assert forall i: nat :: 0 < i <= |suffix| ==> FromEnd(s, i) == s[|s| - |suffix|..][|suffix| - i];
  }

  lemma FailureTail()
    ensures IsFailure("_failure_total") && !IsDuration("_failure_total" + "") && "_" + FAILURE_SUFFIX == "_failure_total"
  {
    assert "_failure_total"[1..] == "failure_total";
  }

  lemma CompletionTail()
    ensures !IsFailure("_completion_total") && !IsDuration("_completion_total")
  {
    assert FromEnd("_completion_total", 7) == 'n' && FromEnd("failure_total", 7) == 'e';
    assert FromEnd("_completion_total", 1) == 'l' && FromEnd("duration_seconds", 1) == 's';
    if IsFailure("_completion_total") { LastChars("_completion_total", FAILURE_SUFFIX); }
    if IsDuration("_completion_total") { LastChars("_completion_total", DURATION_SUFFIX); }
  }

  lemma DurationTail()
    ensures !IsFailure("_duration_seconds") && IsDuration("_duration_seconds")
  {
    assert "_duration_seconds"[1..] == "duration_seconds";
    assert FromEnd("_duration_seconds", 1) == 's' && FromEnd("failure_total", 1) == 'l';
    if IsFailure("_duration_seconds") { LastChars("_duration_seconds", FAILURE_SUFFIX); }
  }

  lemma NotADuration(p: string, c: string)
    ensures !IsDuration(p + "_" + (c + "_failure_total"))
  {
    var s := p + "_" + (c + "_failure_total");
    assert FromEnd(s, 1) == 'l' && FromEnd("duration_seconds", 1) == 's';
    if IsDuration(s) { LastChars(s, DURATION_SUFFIX); }
  }

  // Whatever the cronjob is called, exactly one recorded name is a failure name and exactly one
  // a duration name, and the failure name's legend is the name without its suffix.
  lemma RecordedNamesClassify(metricPrefix: string, c: string)
    ensures var n := RecordedNames(metricPrefix, c);
      && !IsFailure(n[0]) && !IsDuration(n[0])
      && IsFailure(n[1]) && !IsDuration(n[1])
      && !IsFailure(n[2]) && IsDuration(n[2])
      && FailureLegend(n[1]) == metricPrefix + "_" + c
  {
    CompletionTail();
    FailureTail();
    DurationTail();
    NotADuration(metricPrefix, c);
    EndsLike(metricPrefix, c, "_completion_total", FAILURE_SUFFIX);
    EndsLike(metricPrefix, c, "_completion_total", DURATION_SUFFIX);
    EndsLike(metricPrefix, c, "_failure_total", FAILURE_SUFFIX);
    EndsLike(metricPrefix, c, "_duration_seconds", FAILURE_SUFFIX);
    EndsLike(metricPrefix, c, "_duration_seconds", DURATION_SUFFIX);
  }

  lemma FilterTriple<T>(p: T -> bool, a: T, b: T, c: T)
    ensures Filter(p, [a, b, c]) == (if p(a) then [a] else []) + (if p(b) then [b] else []) + (if p(c) then [c] else [])
  {
    assert [a, b, c] == [] + [a] + [b] + [c];
    FilterAppend(p, [], a);
    FilterAppend(p, [] + [a], b);
    FilterAppend(p, [] + [a] + [b], c);
  }

  // The failure gauge of one cronjob under its own name.
  function RecordedFailure(metricPrefix: string): NamesEntry -> Target {
    (e: NamesEntry) =>
      Target(Metric(metricPrefix + "_" + (e.cronjob + "_failure_total")), Text(metricPrefix + "_" + e.cronjob))
  }

  lemma FailuresOfRecorded(metricPrefix: string, e: NamesEntry)
    requires e.names == RecordedNames(metricPrefix, e.cronjob)
    ensures FailuresOf(e) == [RecordedFailure(metricPrefix)(e)]
  {
    var n := e.names;
    RecordedNamesClassify(metricPrefix, e.cronjob);
    FilterTriple(IsFailure, n[0], n[1], n[2]);
    assert n == [n[0], n[1], n[2]];
  }

  // The failure targets: one per recorded cronjob, in the order of the visit.
  lemma OneFailureTargetEach(metricPrefix: string, entries: seq<NamesEntry>)
    requires Recorded(metricPrefix, entries)
    ensures FailureTargets(entries) == Map(RecordedFailure(metricPrefix), entries)
  {
    forall i | 0 <= i < |entries| ensures FailuresOf(entries[i]) == [RecordedFailure(metricPrefix)(entries[i])] {
      FailuresOfRecorded(metricPrefix, entries[i]);
    }
    FlatMapOfSingles(FailuresOf, RecordedFailure(metricPrefix), entries);
  }

  // The first cronjob's row group: a row, two totals, one duration, one state timeline.
  lemma RowOfRecorded(metricPrefix: string, e: NamesEntry)
    requires e.names == RecordedNames(metricPrefix, e.cronjob)
    ensures RowPanels(e) ==
      [Panel(Row(e.cronjob), []),
       Panel(Plain, [Target(CronjobCompletions, MetricNameLegend), Target(CronjobFailures, MetricNameLegend)]),
       Panel(Plain, [Target(Metric(e.names[2]), JobNameLegend)]),
       Panel(StateTimeline, [Target(CronjobFailures, FailureTotalLegend)])]
  {
    RecordedNamesClassify(metricPrefix, e.cronjob);
    SplitTriple(e.names[0], e.names[1], e.names[2]);
    assert e.names == [e.names[0], e.names[1], e.names[2]];
  }

  lemma SplitTriple(a: string, b: string, c: string)
    requires !IsDuration(a) && !IsFailure(a) && !IsDuration(b) && IsFailure(b) && IsDuration(c) && !IsFailure(c)
    ensures Select(NotDuration, TotalTarget, [a, b, c])
         == [Target(CronjobCompletions, MetricNameLegend), Target(CronjobFailures, MetricNameLegend)]
    ensures Select(IsDuration, DurationTarget, [a, b, c]) == [Target(Metric(c), JobNameLegend)]
    ensures Filter(FailureOnly, [a, b, c]) != []
  {
    FilterTriple(NotDuration, a, b, c);
    FilterTriple(IsDuration, a, b, c);
    FilterTriple(FailureOnly, a, b, c);
  }

  lemma {:induction false} SumOfFive(p: seq<Panel>)
    requires |p| == 5
    ensures Sum(TargetsOf, p) == |p[0].targets| + |p[1].targets| + |p[2].targets| + |p[3].targets| + |p[4].targets|
  {
    assert p[1..][1..][1..][1..][1..] == [];
    assert p[1..][0] == p[1] && p[1..][1..][0] == p[2] && p[1..][1..][1..][0] == p[3] && p[1..][1..][1..][1..][0] == p[4];
    assert Sum(TargetsOf, p[1..][1..]) == |p[2].targets| + Sum(TargetsOf, p[1..][1..][1..]);
    assert Sum(TargetsOf, p[1..][1..][1..]) == |p[3].targets| + Sum(TargetsOf, p[1..][1..][1..][1..]);
  }

  lemma {:induction false} SumOfFour(p: seq<Panel>)
    requires |p| == 4
    ensures Sum(TargetsOf, p) == |p[0].targets| + |p[1].targets| + |p[2].targets| + |p[3].targets|
  {
    assert p[1..][1..][1..][1..] == [];
    assert p[1..][0] == p[1] && p[1..][1..][0] == p[2] && p[1..][1..][1..][0] == p[3];
    assert Sum(TargetsOf, p[1..][1..]) == |p[2].targets| + Sum(TargetsOf, p[1..][1..][1..]);
  }

  lemma VisitsFront(a: seq<NamesEntry>, names: map<string, seq<string>>)
    requires Visits(a, names) && a != []
    ensures Visits(a[..|a| - 1], names - {a[|a| - 1].cronjob})
  {
    var front, last := a[..|a| - 1], a[|a| - 1];
    assert forall i :: 0 <= i < |front| ==> front[i] == a[i];
    forall c | c in names - {last.cronjob} ensures exists i :: 0 <= i < |front| && front[i].cronjob == c {
      var i :| 0 <= i < |a| && a[i].cronjob == c;
      assert front[i].cronjob == c;
    }
  }

  // Two ranges over one map visit the same number of entries.
  lemma {:induction false} VisitsAgree(a: seq<NamesEntry>, names: map<string, seq<string>>)
    requires Visits(a, names)
    ensures |a| == |names|
  {
    if a == [] {
      assert names == map[];
    } else {
      var front, last := a[..|a| - 1], a[|a| - 1];
      var rest := names - {last.cronjob};
      VisitsFront(a, names);
      VisitsAgree(front, rest);
      assert names.Keys == rest.Keys + {last.cronjob};
    }
  }

  // Every cronjob in the map has its three recorded names.
  predicate AllRecorded(metricPrefix: string, names: map<string, seq<string>>) {
    forall c | c in names :: names[c] == RecordedNames(metricPrefix, c)
  }

  // A visit of recorded names has one failure target per cronjob.
  lemma VisitTargets(metricPrefix: string, names: map<string, seq<string>>, visit: seq<NamesEntry>)
    requires Visits(visit, names) && AllRecorded(metricPrefix, names)
    ensures |visit| == |names| && |FailureTargets(visit)| == |names|
    ensures Recorded(metricPrefix, visit)
  {
    VisitsAgree(visit, names);
    OneFailureTargetEach(metricPrefix, visit);
  }

  lemma OverviewTargets(
    metricPrefix: string, totals: seq<string>, visit1: seq<NamesEntry>, visit2: seq<NamesEntry>)
    ensures |Overview(metricPrefix, totals, visit1, visit2)| == 5
    ensures Sum(TargetsOf, Overview(metricPrefix, totals, visit1, visit2))
         == 2 * |totals| + |FailureTargets(visit1)| + |FailureTargets(visit2)|
  {
    SumOfFive(Overview(metricPrefix, totals, visit1, visit2));
  }

  lemma RowTargets(metricPrefix: string, visit: seq<NamesEntry>)
    requires Recorded(metricPrefix, visit)
    ensures |FirstRow(visit)| == (if visit == [] then 0 else 4) && Sum(TargetsOf, FirstRow(visit)) == |FirstRow(visit)|
  {
    if visit != [] {
      RowOfRecorded(metricPrefix, visit[0]);
      SumOfFour(FirstRow(visit));
    }
  }

  lemma TargetsOfBoth(
    metricPrefix: string, totals: seq<string>, visit1: seq<NamesEntry>, visit2: seq<NamesEntry>, visit3: seq<NamesEntry>)
    requires Recorded(metricPrefix, visit3)
    ensures var panels := Panels(metricPrefix, totals, visit1, visit2, visit3);
      && |panels| == (if visit3 == [] then 5 else 9)
      && Sum(TargetsOf, panels) == 2 * |totals| + |FailureTargets(visit1)| + |FailureTargets(visit2)| + (|panels| - 5)
  {
    OverviewTargets(metricPrefix, totals, visit1, visit2);
    RowTargets(metricPrefix, visit3);
    SumConcat(TargetsOf, Overview(metricPrefix, totals, visit1, visit2), FirstRow(visit3));
  }

  // With N recorded cronjobs and T total names the panels hold 2T + 2N targets, and 4 more in
  // the one row group when N is not zero, whatever the order in which the map is visited.
  lemma TargetCount(
    metricPrefix: string, totals: seq<string>, names: map<string, seq<string>>,
    visit1: seq<NamesEntry>, visit2: seq<NamesEntry>, visit3: seq<NamesEntry>)
    requires Visits(visit1, names) && Visits(visit2, names) && Visits(visit3, names)
    requires AllRecorded(metricPrefix, names)
    ensures var panels := Panels(metricPrefix, totals, visit1, visit2, visit3);
      && Sum(TargetsOf, panels) == 2 * |totals| + 2 * |names| + (if names == map[] then 0 else 4)
      && |panels| == if names == map[] then 5 else 9
  {
    VisitTargets(metricPrefix, names, visit1);
    VisitTargets(metricPrefix, names, visit2);
    VisitTargets(metricPrefix, names, visit3);
    TargetsOfBoth(metricPrefix, totals, visit1, visit2, visit3);
  }

  // ---------- from the rounds to the panels ----------

  // The names map after any number of rounds; ProcessCronjobsResponse does one.
  function NamesAfterRounds(metricPrefix: string, rounds: seq<seq<Responses.CronjobResponse>>): map<string, seq<string>> {
    if rounds == [] then map[] else
      NamesAfter(metricPrefix, NamesAfterRounds(metricPrefix, rounds[..|rounds| - 1]), rounds[|rounds| - 1])
  }

  function SanitizedNames(cs: seq<Responses.CronjobResponse>): set<string> {
    set c | c in cs :: Sanitize.Sanitize(c.name)
  }

  // The distinct sanitized names of all cronjobs ever listed.
  function NamesEverListed(rounds: seq<seq<Responses.CronjobResponse>>): set<string> {
    if rounds == [] then {} else NamesEverListed(rounds[..|rounds| - 1]) + SanitizedNames(rounds[|rounds| - 1])
  }

  lemma {:induction false} RoundKeepsRecorded(
    metricPrefix: string, names: map<string, seq<string>>, cs: seq<Responses.CronjobResponse>)
    requires AllRecorded(metricPrefix, names)
    ensures AllRecorded(metricPrefix, NamesAfter(metricPrefix, names, cs))
    ensures NamesAfter(metricPrefix, names, cs).Keys == names.Keys + SanitizedNames(cs)
  {
    if cs != [] {
      var front, last := cs[..|cs| - 1], cs[|cs| - 1];
      RoundKeepsRecorded(metricPrefix, names, front);
      assert cs == front + [last];
      assert SanitizedNames(cs) == SanitizedNames(front) + {Sanitize.Sanitize(last.name)};
    }
  }

  // From an empty map, over every run of rounds: one entry per sanitized name ever listed, each
  // with its three recorded names.
  lemma {:induction false} RoundsRecordNames(metricPrefix: string, rounds: seq<seq<Responses.CronjobResponse>>)
    ensures AllRecorded(metricPrefix, NamesAfterRounds(metricPrefix, rounds))
    ensures NamesAfterRounds(metricPrefix, rounds).Keys == NamesEverListed(rounds)
  {
    if rounds != [] {
      var front := rounds[..|rounds| - 1];
      RoundsRecordNames(metricPrefix, front);
      RoundKeepsRecorded(metricPrefix, NamesAfterRounds(metricPrefix, front), rounds[|rounds| - 1]);
    }
  }

  // So after any run of rounds the target count is that of the names ever listed, those of
  // vanished cronjobs included.
  lemma TargetCountAfterRounds(
    metricPrefix: string, totals: seq<string>, rounds: seq<seq<Responses.CronjobResponse>>,
    visit1: seq<NamesEntry>, visit2: seq<NamesEntry>, visit3: seq<NamesEntry>)
    requires Visits(visit1, NamesAfterRounds(metricPrefix, rounds))
    requires Visits(visit2, NamesAfterRounds(metricPrefix, rounds))
    requires Visits(visit3, NamesAfterRounds(metricPrefix, rounds))
    ensures Sum(TargetsOf, Panels(metricPrefix, totals, visit1, visit2, visit3))
         == 2 * |totals| + 2 * |NamesEverListed(rounds)| + if NamesEverListed(rounds) == {} then 0 else 4
  {
    var names := NamesAfterRounds(metricPrefix, rounds);
    RoundsRecordNames(metricPrefix, rounds);
    TargetCount(metricPrefix, totals, names, visit1, visit2, visit3);
    assert |names| == |names.Keys|;
    assert names == map[] <==> names.Keys == {};
  }

  // ---------- the targets are the gauges ----------

  function MetricPrefixOf(sub: string): string { "sk8l_" + sub }

  // A panel's expression is the registered name of the metric if and only if the namespace is
  // set: with an empty one the registry drops an underscore that the expressions keep.
  lemma ExpressionsNameMetricsIff(sub: string, name: string)
    ensures MetricPrefixOf(sub) + "_" + name == FQName(sub, name) <==> sub != ""
  {
    if sub == "" {
      assert |MetricPrefixOf(sub) + "_" + name| == |FQName(sub, name)| + 1;
    } else {
      assert MetricPrefixOf(sub) + "_" == NamePrefix(sub);
    }
  }

  // The name without its ending "_total", if it has it, and with blanks for underscores.
  predicate IsReadable(text: string, name: string) {
    && |text| == (if HasSuffix(name, "_total") then |name| - 6 else |name|)
    && forall i :: 0 <= i < |text| ==> text[i] == if name[i] == '_' then ' ' else name[i]
  }

  predicate ShowsByName(t: Target, fqName: string) { t.expr == Metric(fqName) && t.legend == MetricNameLegend }

  predicate ShowsReadable(t: Target, fqName: string, name: string) {
    t.expr == Metric(fqName) && t.legend.Text? && IsReadable(t.legend.text, name)
  }

  lemma TotalIsShown(sub: string, name: string)
    requires sub != ""
    ensures ShowsByName(SeriesTarget(MetricPrefixOf(sub))(name), FQName(sub, name))
    ensures ShowsReadable(BarTarget(MetricPrefixOf(sub))(name), FQName(sub, name), name)
  {
    ExpressionsNameMetricsIff(sub, name);
  }

  predicate AllByName(targets: seq<Target>, sub: string, totals: seq<string>) {
    |targets| == |totals| && forall i :: 0 <= i < |totals| ==> ShowsByName(targets[i], FQName(sub, totals[i]))
  }

  predicate AllReadable(targets: seq<Target>, sub: string, totals: seq<string>) {
    |targets| == |totals| && forall i :: 0 <= i < |totals| ==> ShowsReadable(targets[i], FQName(sub, totals[i]), totals[i])
  }

  lemma TotalsAreShown(sub: string, totals: seq<string>)
    requires sub != ""
    ensures AllByName(Map(SeriesTarget(MetricPrefixOf(sub)), totals), sub, totals)
    ensures AllReadable(Map(BarTarget(MetricPrefixOf(sub)), totals), sub, totals)
  {
    forall name ensures ShowsByName(SeriesTarget(MetricPrefixOf(sub))(name), FQName(sub, name))
                     && ShowsReadable(BarTarget(MetricPrefixOf(sub))(name), FQName(sub, name), name) {
      TotalIsShown(sub, name);
    }
  }

  // The overview panels of a set namespace: every total appears in both panels under its
  // registered name, in order, once under the metric's name and once under a readable legend.
  lemma OverviewShowsTotals(sub: string, totals: seq<string>, visit1: seq<NamesEntry>, visit2: seq<NamesEntry>)
    requires sub != ""
    ensures var panels := Overview(MetricPrefixOf(sub), totals, visit1, visit2);
      && panels[1].kind == TimeSeries && AllByName(panels[1].targets, sub, totals)
      && panels[2].kind == BarGauge && AllReadable(panels[2].targets, sub, totals)
  {
    TotalsAreShown(sub, totals);
  }

  // The other overview panels: the heading, and every failure metric twice.
  lemma OverviewShowsFailures(metricPrefix: string, totals: seq<string>, visit1: seq<NamesEntry>, visit2: seq<NamesEntry>)
    ensures var panels := Overview(metricPrefix, totals, visit1, visit2);
      && |panels| == 5 && panels[0] == Panel(OverviewRow, [])
      && panels[3] == Panel(StateTimeline, FailureTargets(visit1))
      && panels[4] == Panel(StatusHistory, FailureTargets(visit2))
  {
  }

  // The names recorded for the dashboard are the registered names of the cronjob's gauges.
  lemma RecordedNamesAreRegistered(sub: string, c: string, job: string)
    requires sub != ""
    ensures RecordedNames(MetricPrefixOf(sub), c) ==
      [FQName(sub, MetricName(Ident(c, Completions))), FQName(sub, MetricName(Ident(c, Failures))),
       FQName(sub, MetricName(Ident(c, Durations(job))))]
  {
    ExpressionsNameMetricsIff(sub, c + "_completion_total");
    ExpressionsNameMetricsIff(sub, c + "_failure_total");
    ExpressionsNameMetricsIff(sub, c + "_duration_seconds");
  }

  // Every cronjob the dashboard knows has its failure and completion gauges in the map.
  ghost predicate Covered(sub: string, g: Gauges, names: map<string, seq<string>>) {
    forall c | c in names :: KeyOf(sub, Ident(c, Failures)) in g && KeyOf(sub, Ident(c, Completions)) in g
  }

  lemma {:induction false} SetAllKeepsKey(sub: string, g: Gauges, ops: seq<Op>, key: string)
    requires key in g
    ensures key in SetAll(sub, g, ops)
  {
    if ops != [] { SetAllKeepsKey(sub, g, ops[..|ops| - 1], key); }
  }

  // A round leaves the two gauges of each of its cronjobs in the map.
  lemma OpsSetTheirKeys(sub: string, g: Gauges, c: Responses.CronjobResponse)
    ensures KeyOf(sub, Ident(Sanitize.Sanitize(c.name), Failures)) in SetAll(sub, g, OpsOf(c))
    ensures KeyOf(sub, Ident(Sanitize.Sanitize(c.name), Completions)) in SetAll(sub, g, OpsOf(c))
  {
    var name := Sanitize.Sanitize(c.name);
    SetTwoMore(sub, g, DurationOps(name, c.jobs),
               Op(Ident(name, Completions), Completed(c)), Op(Ident(name, Failures), Failing(c)));
  }

  // Rounds keep it, so it holds over every run that begins with both maps empty.
  lemma {:induction false} RoundsKeepCovered(
    sub: string, metricPrefix: string, g: Gauges, names: map<string, seq<string>>, cs: seq<Responses.CronjobResponse>)
    requires Covered(sub, g, names)
    ensures Covered(sub, SetAll(sub, g, RoundOps(cs)), NamesAfter(metricPrefix, names, cs))
  {
    if cs != [] {
      var front, c := cs[..|cs| - 1], cs[|cs| - 1];
      RoundsKeepCovered(sub, metricPrefix, g, names, front);
      var mid := SetAll(sub, g, RoundOps(front));
      SetAllConcat(sub, g, RoundOps(front), OpsOf(c));
      OpsSetTheirKeys(sub, mid, c);
      forall x | x in NamesAfter(metricPrefix, names, front)
        ensures KeyOf(sub, Ident(x, Failures)) in SetAll(sub, mid, OpsOf(c))
        ensures KeyOf(sub, Ident(x, Completions)) in SetAll(sub, mid, OpsOf(c))
      {
        SetAllKeepsKey(sub, mid, OpsOf(c), KeyOf(sub, Ident(x, Failures)));
        SetAllKeepsKey(sub, mid, OpsOf(c), KeyOf(sub, Ident(x, Completions)));
      }
    }
  }
}
