// The gauges: one long-lived map from string keys to registered gauges, and totals recomputed
// in every round.  Registering one metric identity twice panics, so it is a precondition here.
module Metrics {
  import opened Common
  import opened Strings
  import opened Responses
  import opened Sanitize

  const NAMESPACE := "sk8l"

  // ---------- identities, keys and names ----------

  datatype Family = Completions | Failures | Durations(job: string)

  // A per-cronjob gauge: the sanitized cronjob name and, for durations, the job.
  datatype Ident = Ident(cronjob: string, family: Family)

  function KeyPrefix(sub: string): string { NAMESPACE + "_" + sub + "_" }

  // completionsKey, failuresKey and durationKey.
  function KeyOf(sub: string, id: Ident): string {
    match id.family
    case Completions => KeyPrefix(sub) + id.cronjob + "_completions"
    case Failures => KeyPrefix(sub) + id.cronjob + "_failures"
    case Durations(job) => KeyPrefix(sub) + id.cronjob + "_" + job + "_durations"
  }

  function MetricName(id: Ident): string {
    match id.family
    case Completions => id.cronjob + "_completion_total"
    case Failures => id.cronjob + "_failure_total"
    case Durations(_) => id.cronjob + "_duration_seconds"
  }

  // prometheus.BuildFQName for a non-empty namespace and name.
  function NamePrefix(sub: string): string { NAMESPACE + "_" + (if sub == "" then "" else sub + "_") }

  function FQName(sub: string, name: string): string { NamePrefix(sub) + name }

  function Help(id: Ident): string {
    match id.family
    case Completions => id.cronjob + " completion total"
    case Failures => id.cronjob + " failure total"
    case Durations(_) => "Duration of " + id.cronjob + " in seconds"
  }

  // label is the value of job_name, the only constant label used.
  datatype Desc = Desc(fqName: string, help: string, jobName: Option<string>)

  function DescOf(sub: string, id: Ident): Desc {
    Desc(FQName(sub, MetricName(id)), Help(id), if id.family.Durations? then Some(id.family.job) else None)
  }

  const TOTAL_NAMES := ["registered_cronjobs_total", "completed_cronjobs_total",
                        "running_cronjobs_total", "failing_cronjobs_total"]

  function TotalDescs(sub: string): set<Desc> {
    set name | name in TOTAL_NAMES :: Desc(FQName(sub, name), "", None)
  }

  predicate IsTotal(sub: string, d: Desc) { d in TotalDescs(sub) }

  // What makes MustRegister panic: the same name and label value, or the same name with another
  // help text or other label names.
  predicate Conflicts(d: Desc, e: Desc) {
    d.fqName == e.fqName && (d.jobName == e.jobName || d.help != e.help || d.jobName.Some? != e.jobName.Some?)
  }

  predicate PlainJob(id: Ident) { id.family.Durations? ==> '_' !in id.family.job }

  function FromEnd(s: string, i: nat): char
    requires 0 < i <= |s|
  {
    s[|s| - i]
  }

  lemma KeyEndings(sub: string, id: Ident)
    ensures var s := KeyOf(sub, id);
      && |s| > 6
      && (id.family.Completions? ==> FromEnd(s, 2) == 'n' && FromEnd(s, 6) == 'e')
      && (id.family.Failures? ==> FromEnd(s, 2) == 'e')
      && (id.family.Durations? ==> FromEnd(s, 2) == 'n' && FromEnd(s, 6) == 'a')
  {
    match id.family
    case Completions => Ending(KeyPrefix(sub) + id.cronjob, "_completions");
    case Failures => Ending(KeyPrefix(sub) + id.cronjob, "_failures");
    case Durations(job) => Ending(KeyPrefix(sub) + id.cronjob + "_" + job, "_durations");
  }

  lemma Ending(a: string, b: string)
    ensures forall i: nat :: 0 < i <= |b| ==> FromEnd(a + b, i) == FromEnd(b, i)
  {
  }

  // The key determines the identity, for job names without an underscore.
  lemma KeyDeterminesIdentity(sub: string, a: Ident, b: Ident)
    requires PlainJob(a) && PlainJob(b) && KeyOf(sub, a) == KeyOf(sub, b)
    ensures a == b
  {
    KeyEndings(sub, a);
    KeyEndings(sub, b);
    var p := KeyPrefix(sub);
    match a.family
    case Completions => SuffixDecides(p + a.cronjob, "_completions", p + b.cronjob, "_completions");
                        PrefixCancels(p, a.cronjob, b.cronjob);
    case Failures => SuffixDecides(p + a.cronjob, "_failures", p + b.cronjob, "_failures");
                     PrefixCancels(p, a.cronjob, b.cronjob);
    case Durations(job) =>
      assert b.family.Durations?;
      var x, y := p + a.cronjob, p + b.cronjob;
      SuffixDecides(x + "_" + job, "_durations", y + "_" + b.family.job, "_durations");
      LastUnderscoreSplits(x, y, job, b.family.job);
      PrefixCancels(p, a.cronjob, b.cronjob);
  }

  lemma PrefixCancels(p: string, a: string, b: string)
    requires p + a == p + b
    ensures a == b
  {
    assert (p + a)[|p|..] == a && (p + b)[|p|..] == b;
  }

  // With underscores in job names two identities can share a key.
  lemma UnderscoredJobsCanCollide(sub: string)
    ensures var a, b := Ident("x", Durations("y_z")), Ident("x_y", Durations("z"));
      KeyOf(sub, a) == KeyOf(sub, b) && DescOf(sub, a) != DescOf(sub, b)
  {
    var p := KeyPrefix(sub);
    assert p + "x" + "_" + "y_z" == p + "x_y" + "_" + "z";
  }

  lemma NameEndings(sub: string, id: Ident)
    ensures var s := FQName(sub, MetricName(id));
      && |s| > 7
      && (id.family.Completions? ==> FromEnd(s, 1) == 'l' && FromEnd(s, 7) == 'n')
      && (id.family.Failures? ==> FromEnd(s, 1) == 'l' && FromEnd(s, 7) == 'e')
      && (id.family.Durations? ==> FromEnd(s, 1) == 's')
  {
    match id.family
    case Completions => EndingOfName(sub, id.cronjob, "_completion_total");
    case Failures => EndingOfName(sub, id.cronjob, "_failure_total");
    case Durations(_) => EndingOfName(sub, id.cronjob, "_duration_seconds");
  }

  lemma EndingOfName(sub: string, a: string, b: string)
    ensures |FQName(sub, a + b)| >= |b|
    ensures forall i: nat :: 0 < i <= |b| ==> FromEnd(FQName(sub, a + b), i) == FromEnd(b, i)
  {
    Ending(a, b);
    Ending(NamePrefix(sub), a + b);
  }

  // The full name determines the cronjob and the family; with the label it determines the
  // identity, whatever the job is called.
  lemma NameDeterminesGauge(sub: string, a: Ident, b: Ident)
    requires FQName(sub, MetricName(a)) == FQName(sub, MetricName(b))
    ensures a.cronjob == b.cronjob && Help(a) == Help(b)
    ensures a.family.Durations? <==> b.family.Durations?
    ensures DescOf(sub, a).jobName == DescOf(sub, b).jobName ==> a == b
  {
    NameEndings(sub, a);
    NameEndings(sub, b);
    PrefixCancels(NamePrefix(sub), MetricName(a), MetricName(b));
    match a.family
    case Completions => SuffixDecides(a.cronjob, "_completion_total", b.cronjob, "_completion_total");
    case Failures => SuffixDecides(a.cronjob, "_failure_total", b.cronjob, "_failure_total");
    case Durations(_) => SuffixDecides(a.cronjob, "_duration_seconds", b.cronjob, "_duration_seconds");
  }

  // A per-cronjob metric never has the name of one of the totals.
  lemma TotalsAreApart(sub: string, id: Ident, d: Desc)
    requires IsTotal(sub, d)
    ensures d.fqName != FQName(sub, MetricName(id))
  {
    NameEndings(sub, id);
    var name :| name in TOTAL_NAMES && d == Desc(FQName(sub, name), "", None);
    assert |name| > 7 && FromEnd(name, 1) == 'l' && FromEnd(name, 7) == 's';
    Ending(NamePrefix(sub), name);
  }

  // Over all keys and identities: the key and the pair of metric name and job_name label
  // determine each other.
  lemma KeyIffIdentity(sub: string, a: Ident, b: Ident)
    requires PlainJob(a) && PlainJob(b)
    ensures KeyOf(sub, a) == KeyOf(sub, b) <==>
      DescOf(sub, a).fqName == DescOf(sub, b).fqName && DescOf(sub, a).jobName == DescOf(sub, b).jobName
  {
    if KeyOf(sub, a) == KeyOf(sub, b) {
      KeyDeterminesIdentity(sub, a, b);
    }
    if DescOf(sub, a).fqName == DescOf(sub, b).fqName && DescOf(sub, a).jobName == DescOf(sub, b).jobName {
      NameDeterminesGauge(sub, a, b);
    }
  }

  // ---------- the registry ----------

  datatype Gauge = Gauge(desc: Desc, value: int)

  // setGaugeInMap was called for this identity with this value.
  datatype Op = Op(id: Ident, value: int)

  type Gauges = map<string, Gauge>

  function SetOne(sub: string, g: Gauges, op: Op): Gauges {
    var key := KeyOf(sub, op.id);
    g[key := Gauge(if key in g then g[key].desc else DescOf(sub, op.id), op.value)]
  }

  function SetAll(sub: string, g: Gauges, ops: seq<Op>): Gauges {
    if ops == [] then g else SetOne(sub, SetAll(sub, g, ops[..|ops| - 1]), ops[|ops| - 1])
  }

  lemma {:induction false} SetAllConcat(sub: string, g: Gauges, a: seq<Op>, b: seq<Op>)
    ensures SetAll(sub, g, a + b) == SetAll(sub, SetAll(sub, g, a), b)
  {
    if b == [] {
      assert a + b == a;
    } else {
      assert (a + b)[..|a + b| - 1] == a + b[..|b| - 1];
      SetAllConcat(sub, g, a, b[..|b| - 1]);
    }
  }

  function DurationOp(cronjob: string, j: JobResponse): Op {
    Op(Ident(cronjob, Durations(j.name)), if j.active > 0 then j.durationInS else 0)
  }

  function DurationOps(cronjob: string, jobs: seq<JobResponse>): seq<Op> {
    seq(|jobs|, i requires 0 <= i < |jobs| => DurationOp(cronjob, jobs[i]))
  }

  predicate JobIsFailed(j: JobResponse) { j.failed }
  predicate JobIsCompleted(j: JobResponse) { j.completionTime != "" }

  function Failing(c: CronjobResponse): nat { Count(JobIsFailed, c.jobs) }
  function Completed(c: CronjobResponse): nat { Count(JobIsCompleted, c.jobs) }
  function Running(c: CronjobResponse): nat { |c.runningJobs| }

  function OpsOf(c: CronjobResponse): seq<Op> {
    var name := Sanitize.Sanitize(c.name);
    DurationOps(name, c.jobs) + [Op(Ident(name, Completions), Completed(c)), Op(Ident(name, Failures), Failing(c))]
  }

  function RoundOps(cs: seq<CronjobResponse>): seq<Op> {
    if cs == [] then [] else RoundOps(cs[..|cs| - 1]) + OpsOf(cs[|cs| - 1])
  }

  // The names recordSingleCronjobMetrics stores for the dashboard.
  function RecordedNames(metricPrefix: string, cronjob: string): seq<string> {
    [metricPrefix + "_" + (cronjob + "_completion_total"),
     metricPrefix + "_" + (cronjob + "_failure_total"),
     metricPrefix + "_" + (cronjob + "_duration_seconds")]
  }

  function NamesAfter(metricPrefix: string, names: map<string, seq<string>>, cs: seq<CronjobResponse>): map<string, seq<string>> {
    if cs == [] then names else
      var c := Sanitize.Sanitize(cs[|cs| - 1].name);
      NamesAfter(metricPrefix, names, cs[..|cs| - 1])[c := RecordedNames(metricPrefix, c)]
  }

  lemma SetTwoMore(sub: string, g: Gauges, ops: seq<Op>, a: Op, b: Op)
    ensures SetAll(sub, g, ops + [a, b]) == SetOne(sub, SetOne(sub, SetAll(sub, g, ops), a), b)
  {
    assert (ops + [a, b])[..|ops| + 1] == ops + [a];
    assert (ops + [a])[..|ops|] == ops;
  }

  lemma OneMoreCronjob(sub: string, metricPrefix: string, g: Gauges, names: map<string, seq<string>>,
                       cs: seq<CronjobResponse>, i: nat)
    requires i < |cs|
    ensures SetAll(sub, g, RoundOps(cs[..i + 1])) == SetAll(sub, SetAll(sub, g, RoundOps(cs[..i])), OpsOf(cs[i]))
    ensures var name := Sanitize.Sanitize(cs[i].name);
      NamesAfter(metricPrefix, names, cs[..i + 1])
        == NamesAfter(metricPrefix, names, cs[..i])[name := RecordedNames(metricPrefix, name)]
    ensures Sum(Running, cs[..i + 1]) == Sum(Running, cs[..i]) + Running(cs[i])
    ensures Sum(Failing, cs[..i + 1]) == Sum(Failing, cs[..i]) + Failing(cs[i])
    ensures Sum(Completed, cs[..i + 1]) == Sum(Completed, cs[..i]) + Completed(cs[i])
  {
    assert cs[..i + 1][..i] == cs[..i];
    SetAllConcat(sub, g, RoundOps(cs[..i]), OpsOf(cs[i]));
    SumOneMore(Running, cs, i);
    SumOneMore(Failing, cs, i);
    SumOneMore(Completed, cs, i);
  }

  class Recorder {
    const sub: string
    const metricPrefix: string
    var gauges: Gauges
    var registered: set<Desc>
    var names: map<string, seq<string>>
    var registeredTotal: int
    var runningTotal: int
    var failingTotal: int
    var completedTotal: int
    // The identity each key was first used for.
    ghost var owner: map<string, Ident>

    ghost predicate Valid()
      reads this`gauges, this`registered, this`owner
    {
      && owner.Keys == gauges.Keys
      && (forall k :: k in gauges ==> KeyOf(sub, owner[k]) == k && gauges[k].desc == DescOf(sub, owner[k]))
      && (forall d :: d in registered <==> IsTotal(sub, d) || exists k :: k in gauges && gauges[k].desc == d)
    }

    // The four totals are registered when the program starts.
    constructor (sub: string, metricPrefix: string)
      ensures Valid() && gauges == map[] && names == map[]
      ensures this.sub == sub && this.metricPrefix == metricPrefix
    {
      this.sub, this.metricPrefix := sub, metricPrefix;
      gauges, names, owner := map[], map[], map[];
      registered := TotalDescs(sub);
      registeredTotal, runningTotal, failingTotal, completedTotal := 0, 0, 0, 0;
    }

    // promauto.NewGauge panics on a conflict; here a caller must show there is none.
    method NewGauge(d: Desc)
      requires forall e :: e in registered ==> !Conflicts(d, e)
      modifies this`registered
      ensures registered == old(registered) + {d}
    {
      registered := registered + {d};
    }

    lemma NoConflict(id: Ident)
      requires Valid() && KeyOf(sub, id) !in gauges
      ensures forall e :: e in registered ==> !Conflicts(DescOf(sub, id), e)
    {
      forall e | e in registered ensures !Conflicts(DescOf(sub, id), e) {
        if IsTotal(sub, e) {
          TotalsAreApart(sub, id, e);
        } else {
          var k :| k in gauges && gauges[k].desc == e;
          if e.fqName == DescOf(sub, id).fqName {
            NameDeterminesGauge(sub, id, owner[k]);
          }
        }
      }
    }

    // setGaugeInMap
    method SetGaugeInMap(key: string, d: Desc, value: int, ghost id: Ident)
      requires Valid() && key == KeyOf(sub, id) && d == DescOf(sub, id)
      modifies this`gauges, this`registered, this`owner
      ensures Valid() && gauges == SetOne(sub, old(gauges), Op(id, value))
    {
      if key in gauges {
        gauges := gauges[key := gauges[key].(value := value)];
        return;
      }
      NoConflict(id);
      NewGauge(d);
      gauges := gauges[key := Gauge(d, value)];
      owner := owner[key := id];
      forall e ensures e in registered <==> IsTotal(sub, e) || exists k :: k in gauges && gauges[k].desc == e {
        if e == d { assert gauges[key].desc == e; }
        if e in registered && e != d && !IsTotal(sub, e) {
          var k :| k in old(gauges) && old(gauges)[k].desc == e;
          assert gauges[k].desc == e;
        }
      }
    }

    // recordJobDuration
    method RecordJobDuration(job: JobResponse, cronjob: string) returns (isFailed: bool, isCompleted: bool)
      requires Valid()
      modifies this`gauges, this`registered, this`owner
      ensures Valid() && gauges == SetOne(sub, old(gauges), DurationOp(cronjob, job))
      ensures isFailed == job.failed && isCompleted == (job.completionTime != "")
    {
      isFailed := job.failed;
      isCompleted := job.completionTime != "";
      ghost var id := Ident(cronjob, Durations(job.name));
      var d := Desc(FQName(sub, cronjob + "_duration_seconds"), "Duration of " + cronjob + " in seconds", Some(job.name));
      var duration := 0;
      if job.active > 0 {
        duration := job.durationInS;
      }
      SetGaugeInMap(KeyPrefix(sub) + cronjob + "_" + job.name + "_durations", d, duration, id);
    }

    // The loop of recordSingleCronjobMetrics.
    method RecordJobs(jobs: seq<JobResponse>, cronjob: string) returns (failing: int, completed: int)
      requires Valid()
      modifies this`gauges, this`registered, this`owner
      ensures Valid() && gauges == SetAll(sub, old(gauges), DurationOps(cronjob, jobs))
      ensures failing == Count(JobIsFailed, jobs) && completed == Count(JobIsCompleted, jobs)
    {
      failing, completed := 0, 0;
      for i := 0 to |jobs|
        invariant Valid() && gauges == SetAll(sub, old(gauges), DurationOps(cronjob, jobs[..i]))
        invariant failing == Count(JobIsFailed, jobs[..i]) && completed == Count(JobIsCompleted, jobs[..i])
      {
        var isFailed, isCompleted := RecordJobDuration(jobs[i], cronjob);
        if isFailed { failing := failing + 1; }
        if isCompleted { completed := completed + 1; }
        CountOneMore(JobIsFailed, jobs, i);
        CountOneMore(JobIsCompleted, jobs, i);
        assert DurationOps(cronjob, jobs[..i + 1])[..i] == DurationOps(cronjob, jobs[..i]);
      }
      assert jobs[..|jobs|] == jobs;
    }

    // The two count gauges of recordSingleCronjobMetrics.
    method SetCounts(name: string, completed: int, failing: int)
      requires Valid()
      modifies this`gauges, this`registered, this`owner
      ensures Valid()
      ensures gauges == SetOne(sub, SetOne(sub, old(gauges), Op(Ident(name, Completions), completed)),
                               Op(Ident(name, Failures), failing))
    {
      SetGaugeInMap(KeyPrefix(sub) + name + "_completions",
                    Desc(FQName(sub, name + "_completion_total"), name + " completion total", None),
                    completed, Ident(name, Completions));
      SetGaugeInMap(KeyPrefix(sub) + name + "_failures",
                    Desc(FQName(sub, name + "_failure_total"), name + " failure total", None),
                    failing, Ident(name, Failures));
    }

    // recordSingleCronjobMetrics
    method RecordSingleCronjobMetrics(c: CronjobResponse) returns (running: int, failing: int, completed: int)
      requires Valid()
      modifies this`gauges, this`registered, this`owner, this`names
      ensures Valid() && gauges == SetAll(sub, old(gauges), OpsOf(c))
      ensures names == old(names)[Sanitize.Sanitize(c.name) := RecordedNames(metricPrefix, Sanitize.Sanitize(c.name))]
      ensures running == Running(c) && failing == Failing(c) && completed == Completed(c)
    {
      var name := Sanitize.Sanitize(c.name);
      running := |c.runningJobs|;
      names := names[name := RecordedNames(metricPrefix, name)];
      failing, completed := RecordJobs(c.jobs, name);
      SetCounts(name, completed, failing);
      SetTwoMore(sub, old(gauges), DurationOps(name, c.jobs),
                 Op(Ident(name, Completions), completed), Op(Ident(name, Failures), failing));
    }

    // The loop of processCronjobsResponse.
    method RecordCronjobs(cs: seq<CronjobResponse>) returns (running: int, failing: int, completed: int)
      requires Valid()
      modifies this`gauges, this`registered, this`owner, this`names
      ensures Valid() && gauges == SetAll(sub, old(gauges), RoundOps(cs))
      ensures names == NamesAfter(metricPrefix, old(names), cs)
      ensures running == Sum(Running, cs) && failing == Sum(Failing, cs) && completed == Sum(Completed, cs)
    {
      running, failing, completed := 0, 0, 0;
      for i := 0 to |cs|
        invariant Valid() && gauges == SetAll(sub, old(gauges), RoundOps(cs[..i]))
        invariant names == NamesAfter(metricPrefix, old(names), cs[..i])
        invariant running == Sum(Running, cs[..i]) && failing == Sum(Failing, cs[..i])
        invariant completed == Sum(Completed, cs[..i])
      {
        var r, f, c := RecordSingleCronjobMetrics(cs[i]);
        running, failing, completed := running + r, failing + f, completed + c;
        OneMoreCronjob(sub, metricPrefix, old(gauges), old(names), cs, i);
      }
      assert cs[..|cs|] == cs;
    }

    // processCronjobsResponse
    method ProcessCronjobsResponse(cs: seq<CronjobResponse>)
      requires Valid()
      modifies this`gauges, this`registered, this`owner, this`names
      modifies this`registeredTotal, this`runningTotal, this`failingTotal, this`completedTotal
      ensures Valid()
      ensures gauges == SetAll(sub, old(gauges), RoundOps(cs))
      ensures names == NamesAfter(metricPrefix, old(names), cs)
      ensures registeredTotal == |cs| && runningTotal == Sum(Running, cs)
      ensures failingTotal == Sum(Failing, cs) && completedTotal == Sum(Completed, cs)
    {
      registeredTotal := |cs|;
      var totalRunning, totalFailing, totalCompleted := RecordCronjobs(cs);
      SetTotals(totalRunning, totalFailing, totalCompleted);
    }

    method SetTotals(running: int, failing: int, completed: int)
      modifies this`runningTotal, this`failingTotal, this`completedTotal
      ensures runningTotal == running && failingTotal == failing && completedTotal == completed
    {
      runningTotal := running;
      failingTotal := failing;
      completedTotal := completed;
    }
  }

  // ---------- what the gauges hold after a round ----------

  function LastValue(ops: seq<Op>, id: Ident): Option<int> {
    if ops == [] then None
    else if ops[|ops| - 1].id == id then Some(ops[|ops| - 1].value)
    else LastValue(ops[..|ops| - 1], id)
  }

  predicate PlainJobs(ops: seq<Op>) { forall i :: 0 <= i < |ops| ==> PlainJob(ops[i].id) }

  function ValueAt(sub: string, g: Gauges, id: Ident): Option<int> {
    if KeyOf(sub, id) in g then Some(g[KeyOf(sub, id)].value) else None
  }

  // A gauge holds the last value set for its identity, or what it held before.
  lemma {:induction false} GaugeHoldsLastValue(sub: string, g: Gauges, ops: seq<Op>, id: Ident)
    requires PlainJob(id) && PlainJobs(ops)
    ensures ValueAt(sub, SetAll(sub, g, ops), id)
         == if LastValue(ops, id).Some? then LastValue(ops, id) else ValueAt(sub, g, id)
  {
    if ops != [] {
      var last := ops[|ops| - 1];
      GaugeHoldsLastValue(sub, g, ops[..|ops| - 1], id);
      if KeyOf(sub, last.id) == KeyOf(sub, id) {
        KeyDeterminesIdentity(sub, last.id, id);
      }
    }
  }

  lemma {:induction false} LastValueConcat(a: seq<Op>, b: seq<Op>, id: Ident)
    ensures LastValue(a + b, id) == if LastValue(b, id).Some? then LastValue(b, id) else LastValue(a, id)
  {
    if b == [] {
      assert a + b == a;
    } else {
      assert (a + b)[..|a + b| - 1] == a + b[..|b| - 1];
      LastValueConcat(a, b[..|b| - 1], id);
    }
  }

  function LastJob(jobs: seq<JobResponse>, name: string): Option<JobResponse> {
    if jobs == [] then None
    else if jobs[|jobs| - 1].name == name then Some(jobs[|jobs| - 1])
    else LastJob(jobs[..|jobs| - 1], name)
  }

  lemma {:induction false} LastDurationOp(cronjob: string, jobs: seq<JobResponse>, id: Ident)
    ensures LastValue(DurationOps(cronjob, jobs), id) ==
      if id.family.Durations? && id.cronjob == cronjob && LastJob(jobs, id.family.job).Some?
      then Some(DurationOp(cronjob, LastJob(jobs, id.family.job).value).value) else None
  {
    if jobs != [] {
      LastDurationOp(cronjob, jobs[..|jobs| - 1], id);
      assert DurationOps(cronjob, jobs)[..|jobs| - 1] == DurationOps(cronjob, jobs[..|jobs| - 1]);
    }
  }

  // What one cronjob's round says about a gauge: its own counts, or nothing.
  function Published(c: CronjobResponse, id: Ident): Option<int> {
    if Sanitize.Sanitize(c.name) != id.cronjob then None
    else match id.family
      case Completions => Some(Completed(c))
      case Failures => Some(Failing(c))
      case Durations(job) =>
        match LastJob(c.jobs, job)
        case None => None
        case Some(j) => Some(if j.active > 0 then j.durationInS else 0)
  }

  lemma LastOfTwo(a: Op, b: Op, id: Ident)
    ensures LastValue([a, b], id) == if b.id == id then Some(b.value) else if a.id == id then Some(a.value) else None
  {
    assert [a][..0] == [];
    assert LastValue([a], id) == if a.id == id then Some(a.value) else None;
    assert [a, b][..1] == [a];
  }

  lemma PublishedIsLastValue(c: CronjobResponse, id: Ident)
    ensures LastValue(OpsOf(c), id) == Published(c, id)
  {
    var name := Sanitize.Sanitize(c.name);
    var durations := DurationOps(name, c.jobs);
    var op1, op2 := Op(Ident(name, Completions), Completed(c)), Op(Ident(name, Failures), Failing(c));
    LastDurationOp(name, c.jobs, id);
    LastValueConcat(durations, [op1, op2], id);
    LastOfTwo(op1, op2, id);
    assert OpsOf(c) == durations + [op1, op2];
  }

  // The last listed cronjob that says something about the gauge.
  function LastPublished(cs: seq<CronjobResponse>, id: Ident): Option<int> {
    if cs == [] then None
    else if Published(cs[|cs| - 1], id).Some? then Published(cs[|cs| - 1], id)
    else LastPublished(cs[..|cs| - 1], id)
  }

  predicate PlainJobNames(cs: seq<CronjobResponse>) {
    forall c, j | c in cs && j in c.jobs :: '_' !in j.name
  }

  lemma {:induction false} RoundSaysLastPublished(cs: seq<CronjobResponse>, id: Ident)
    requires PlainJobNames(cs)
    ensures LastValue(RoundOps(cs), id) == LastPublished(cs, id)
    ensures PlainJobs(RoundOps(cs))
  {
    if cs != [] {
      var front, c := cs[..|cs| - 1], cs[|cs| - 1];
      assert c in cs && forall x | x in front :: x in cs;
      RoundSaysLastPublished(front, id);
      PublishedIsLastValue(c, id);
      LastValueConcat(RoundOps(front), OpsOf(c), id);
      assert PlainJobs(OpsOf(c)) by {
        assert forall i :: 0 <= i < |c.jobs| ==> c.jobs[i] in c.jobs;
      }
    }
  }

  // After a round every per-cronjob gauge holds what the last listed cronjob with its sanitized
  // name published, and a gauge nobody published keeps its old value.
  lemma GaugesAfterRound(sub: string, g: Gauges, cs: seq<CronjobResponse>, id: Ident)
    requires PlainJob(id) && PlainJobNames(cs)
    ensures ValueAt(sub, SetAll(sub, g, RoundOps(cs)), id)
         == if LastPublished(cs, id).Some? then LastPublished(cs, id) else ValueAt(sub, g, id)
  {
    RoundSaysLastPublished(cs, id);
    GaugeHoldsLastValue(sub, g, RoundOps(cs), id);
  }

  lemma {:induction false} NobodyPublished(cs: seq<CronjobResponse>, id: Ident)
    requires forall c | c in cs :: Sanitize.Sanitize(c.name) != id.cronjob
    ensures LastPublished(cs, id) == None
  {
    if cs != [] {
      assert cs[|cs| - 1] in cs;
      NobodyPublished(cs[..|cs| - 1], id);
    }
  }

  // The gauges of a cronjob that is no longer listed keep their last values.
  lemma VanishedGaugesKeepTheirValue(sub: string, g: Gauges, cs: seq<CronjobResponse>, id: Ident)
    requires PlainJob(id) && PlainJobNames(cs)
    requires forall c | c in cs :: Sanitize.Sanitize(c.name) != id.cronjob
    ensures ValueAt(sub, SetAll(sub, g, RoundOps(cs)), id) == ValueAt(sub, g, id)
  {
    NobodyPublished(cs, id);
    GaugesAfterRound(sub, g, cs, id);
  }

  lemma {:induction false} LastOfItsName(cs: seq<CronjobResponse>, i: nat, id: Ident)
    requires i < |cs| && Published(cs[i], id).Some?
    requires forall k :: i < k < |cs| ==> Sanitize.Sanitize(cs[k].name) != id.cronjob
    ensures LastPublished(cs, id) == Published(cs[i], id)
  {
    if i < |cs| - 1 {
      LastOfItsName(cs[..|cs| - 1], i, id);
    }
  }

  // Listed cronjobs whose Kubernetes names have the same runs of letters and digits share both
  // count gauges, and the last listed of them decides them.
  lemma LaterCollisionWins(sub: string, g: Gauges, cs: seq<CronjobResponse>, hidden: nat, last: nat)
    requires PlainJobNames(cs) && hidden <= last < |cs|
    requires forall k :: 0 <= k < |cs| ==> KubernetesName(cs[k].name)
    requires Runs(cs[last].name) == Runs(cs[hidden].name)
    requires forall k :: last < k < |cs| ==> Runs(cs[k].name) != Runs(cs[hidden].name)
    ensures var after, name := SetAll(sub, g, RoundOps(cs)), Sanitize.Sanitize(cs[hidden].name);
      && ValueAt(sub, after, Ident(name, Failures)) == Some(Failing(cs[last]))
      && ValueAt(sub, after, Ident(name, Completions)) == Some(Completed(cs[last]))
  {
    var name := Sanitize.Sanitize(cs[hidden].name);
    CollisionIff(cs[last].name, cs[hidden].name);
    forall k | last < k < |cs| ensures Sanitize.Sanitize(cs[k].name) != name {
      CollisionIff(cs[k].name, cs[hidden].name);
    }
    LastOfItsName(cs, last, Ident(name, Failures));
    LastOfItsName(cs, last, Ident(name, Completions));
    GaugesAfterRound(sub, g, cs, Ident(name, Failures));
    GaugesAfterRound(sub, g, cs, Ident(name, Completions));
  }

  // ---------- the gauges by their registered names ----------

  // Every gauge of a plain identity is registered under that identity.
  ghost predicate Named(sub: string, g: Gauges) {
    forall id :: PlainJob(id) && KeyOf(sub, id) in g ==> g[KeyOf(sub, id)].desc == DescOf(sub, id)
  }

  lemma {:induction false} SetAllKeepsNamed(sub: string, g: Gauges, ops: seq<Op>)
    requires Named(sub, g) && PlainJobs(ops)
    ensures Named(sub, SetAll(sub, g, ops))
  {
    if ops != [] {
      var front, op := ops[..|ops| - 1], ops[|ops| - 1];
      SetAllKeepsNamed(sub, g, front);
      var after := SetAll(sub, g, ops);
      forall id | PlainJob(id) && KeyOf(sub, id) in after ensures after[KeyOf(sub, id)].desc == DescOf(sub, id) {
        if KeyOf(sub, id) == KeyOf(sub, op.id) { KeyDeterminesIdentity(sub, id, op.id); }
      }
    }
  }

  lemma DescsByName(sub: string, name: string, job: string)
    ensures DescOf(sub, Ident(name, Completions))
         == Desc(NamePrefix(sub) + (name + "_completion_total"), name + " completion total", None)
    ensures DescOf(sub, Ident(name, Failures))
         == Desc(NamePrefix(sub) + (name + "_failure_total"), name + " failure total", None)
    ensures DescOf(sub, Ident(name, Durations(job)))
         == Desc(NamePrefix(sub) + (name + "_duration_seconds"), "Duration of " + name + " in seconds", Some(job))
    ensures NamePrefix(sub) == if sub == "" then "sk8l_" else "sk8l_" + sub + "_"
  {
    assert "sk8l" + "_" == "sk8l_";
  }

  // The gauge that holds this value under this name, help text and job_name label.
  ghost predicate Exposes(g: Gauges, fqName: string, help: string, jobName: Option<string>, value: int) {
    exists key :: key in g && g[key] == Gauge(Desc(fqName, help, jobName), value)
  }

  lemma ExposedValue(sub: string, g: Gauges, id: Ident, value: int)
    requires Named(sub, g) && PlainJob(id) && ValueAt(sub, g, id) == Some(value)
    ensures Exposes(g, DescOf(sub, id).fqName, DescOf(sub, id).help, DescOf(sub, id).jobName, value)
  {
    assert g[KeyOf(sub, id)] == Gauge(DescOf(sub, id), value);
  }

  // After a round the last listed cronjob of its sanitized name is exposed under that name: the
  // completion gauge counts its jobs with a completion time and the failure gauge its failed jobs.
  lemma CountsAreExposed(sub: string, g: Gauges, cs: seq<CronjobResponse>, i: nat)
    requires Named(sub, g) && PlainJobNames(cs) && i < |cs|
    requires forall k :: i < k < |cs| ==> Sanitize.Sanitize(cs[k].name) != Sanitize.Sanitize(cs[i].name)
    ensures var after, name := SetAll(sub, g, RoundOps(cs)), Sanitize.Sanitize(cs[i].name);
      && Named(sub, after)
      && Exposes(after, NamePrefix(sub) + (name + "_completion_total"), name + " completion total", None,
                 Count((j: JobResponse) => j.completionTime != "", cs[i].jobs))
      && Exposes(after, NamePrefix(sub) + (name + "_failure_total"), name + " failure total", None,
                 Count((j: JobResponse) => j.failed, cs[i].jobs))
  {
    var after, name := SetAll(sub, g, RoundOps(cs)), Sanitize.Sanitize(cs[i].name);
    RoundSaysLastPublished(cs, Ident(name, Failures));
    SetAllKeepsNamed(sub, g, RoundOps(cs));
    LastOfItsName(cs, i, Ident(name, Completions));
    LastOfItsName(cs, i, Ident(name, Failures));
    GaugesAfterRound(sub, g, cs, Ident(name, Completions));
    GaugesAfterRound(sub, g, cs, Ident(name, Failures));
    CountSame(JobIsCompleted, (j: JobResponse) => j.completionTime != "", cs[i].jobs);
    CountSame(JobIsFailed, (j: JobResponse) => j.failed, cs[i].jobs);
    DescsByName(sub, name, "");
    ExposedValue(sub, after, Ident(name, Completions), Completed(cs[i]));
    ExposedValue(sub, after, Ident(name, Failures), Failing(cs[i]));
  }

  lemma {:induction false} CountSame(p: JobResponse -> bool, q: JobResponse -> bool, s: seq<JobResponse>)
    requires forall x :: p(x) == q(x)
    ensures Count(p, s) == Count(q, s)
  {
    if s != [] { CountSame(p, q, s[1..]); }
  }

  lemma {:induction false} LastJobIs(jobs: seq<JobResponse>, k: nat)
    requires k < |jobs| && forall m :: k < m < |jobs| ==> jobs[m].name != jobs[k].name
    ensures LastJob(jobs, jobs[k].name) == Some(jobs[k])
  {
    if k < |jobs| - 1 { LastJobIs(jobs[..|jobs| - 1], k); }
  }

  // And each of its jobs is exposed under its own label: the duration while it is active, else
  // zero.
  lemma DurationsAreExposed(sub: string, g: Gauges, cs: seq<CronjobResponse>, i: nat, k: nat)
    requires Named(sub, g) && PlainJobNames(cs) && i < |cs| && k < |cs[i].jobs|
    requires forall m :: i < m < |cs| ==> Sanitize.Sanitize(cs[m].name) != Sanitize.Sanitize(cs[i].name)
    requires forall m :: k < m < |cs[i].jobs| ==> cs[i].jobs[m].name != cs[i].jobs[k].name
    ensures var name, j := Sanitize.Sanitize(cs[i].name), cs[i].jobs[k];
      Exposes(SetAll(sub, g, RoundOps(cs)), NamePrefix(sub) + (name + "_duration_seconds"),
              "Duration of " + name + " in seconds", Some(j.name), if j.active > 0 then j.durationInS else 0)
  {
    var after, name, j := SetAll(sub, g, RoundOps(cs)), Sanitize.Sanitize(cs[i].name), cs[i].jobs[k];
    var id := Ident(name, Durations(j.name));
    assert cs[i] in cs && j in cs[i].jobs;
    RoundSaysLastPublished(cs, id);
    SetAllKeepsNamed(sub, g, RoundOps(cs));
    LastJobIs(cs[i].jobs, k);
    LastOfItsName(cs, i, id);
    GaugesAfterRound(sub, g, cs, id);
    DescsByName(sub, name, j.name);
    ExposedValue(sub, after, id, if j.active > 0 then j.durationInS else 0);
  }
}
