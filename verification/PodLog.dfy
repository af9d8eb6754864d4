// The pod log of a job: every version is appended, and reading compacts the log to one pod per
// name, the one whose ResourceVersion is greatest as a string.
module PodLog {
  import opened Common
  import opened Strings
  import opened Objects
  import opened EventList
  import opened Store

  predicate Eligible(p: Pod, job: string) { job in p.meta.owners && p.payload.startTime.Some? }

  // The pod lists FindJobPodsForJob may return for a log: which of several pods with equal
  // versions is last, and the order of the names, are up to the sort and the map iteration.
  ghost predicate Compacts(log: seq<Pod>, job: string, r: seq<Pod>) {
    && (forall i, j :: 0 <= i < j < |r| ==> r[i].meta.name != r[j].meta.name)
    && (forall p | p in r :: p in log && Eligible(p, job))
    && (forall p | p in log && Eligible(p, job) :: CoveredBy(p, r))
  }

  // r reports p's name at p's version or a greater one.
  ghost predicate CoveredBy(p: Pod, r: seq<Pod>) {
    exists q :: q in r && q.meta.name == p.meta.name && StrLeq(p.meta.resourceVersion, q.meta.resourceVersion)
  }

  // The groups hold exactly the eligible pods seen so far, each under its name.
  ghost predicate Grouped(groups: map<string, seq<Pod>>, seen: seq<Pod>, job: string) {
    && (forall n :: n in groups ==> groups[n] != [])
    && (forall n, p :: n in groups && p in groups[n] ==> p.meta.name == n && p in seen && Eligible(p, job))
    && (forall p | p in seen && Eligible(p, job) :: p.meta.name in groups && p in groups[p.meta.name])
  }

  function AddToGroup(groups: map<string, seq<Pod>>, p: Pod): map<string, seq<Pod>> {
    groups[p.meta.name := (if p.meta.name in groups then groups[p.meta.name] else []) + [p]]
  }

  lemma AddingKeepsGroups(groups: map<string, seq<Pod>>, seen: seq<Pod>, job: string, p: Pod)
    requires Grouped(groups, seen, job) || Grouped(groups, seen + [p], job)
    requires Eligible(p, job)
    ensures Grouped(AddToGroup(groups, p), seen + [p], job)
  {
    var after := AddToGroup(groups, p);
    forall n, q: Pod | n in after && q in after[n] ensures q.meta.name == n && q in seen + [p] && Eligible(q, job) {
      assert q == p || (n in groups && q in groups[n]);
    }
  }

  lemma SkippingKeepsGroups(groups: map<string, seq<Pod>>, seen: seq<Pod>, job: string, p: Pod)
    requires Grouped(groups, seen, job) && !Eligible(p, job)
    ensures Grouped(groups, seen + [p], job)
  {
  }

  // The inner loop: one append per owner reference named job, once the pod has started.
  method GroupPod(given: map<string, seq<Pod>>, p: Pod, job: string, ghost seen: seq<Pod>)
    returns (groups: map<string, seq<Pod>>)
    requires Grouped(given, seen, job)
    ensures Grouped(groups, seen + [p], job)
  {
    groups := given;
    for j := 0 to |p.meta.owners|
      invariant job !in p.meta.owners[..j] || p.payload.startTime.None? ==> groups == given
      invariant job in p.meta.owners[..j] && p.payload.startTime.Some? ==> Grouped(groups, seen + [p], job)
    {
      if p.meta.owners[j] == job && p.payload.startTime.Some? {
        AddingKeepsGroups(groups, seen, job, p);
        groups := AddToGroup(groups, p);
      }
      assert p.meta.owners[..j + 1] == p.meta.owners[..j] + [p.meta.owners[j]];
    }
    assert p.meta.owners[..|p.meta.owners|] == p.meta.owners;
    if !Eligible(p, job) { SkippingKeepsGroups(given, seen, job, p); }
  }

  method GroupByName(log: seq<Pod>, job: string) returns (groups: map<string, seq<Pod>>)
    ensures Grouped(groups, log, job)
  {
    groups := map[];
    for i := 0 to |log|
      invariant Grouped(groups, log[..i], job)
    {
      groups := GroupPod(groups, log[i], job, log[..i]);
      assert log[..i + 1] == log[..i] + [log[i]];
    }
    assert log[..|log|] == log;
  }

  // r compacts the groups done so far; the names in left are still to do.
  ghost predicate CompactedSoFar(groups: map<string, seq<Pod>>, left: set<string>, log: seq<Pod>, job: string, r: seq<Pod>) {
    && (forall i, j :: 0 <= i < j < |r| ==> r[i].meta.name != r[j].meta.name)
    && (forall p | p in r :: p in log && Eligible(p, job) && p.meta.name !in left)
    && (forall n, p :: n in groups && n !in left && p in groups[n] ==> CoveredBy(p, r))
  }

  lemma CompactOneMore(
    groups: map<string, seq<Pod>>, left: set<string>, log: seq<Pod>, job: string, r: seq<Pod>, name: string, latest: Pod)
    requires Grouped(groups, log, job) && CompactedSoFar(groups, left, log, job, r)
    requires name in left && name in groups && latest in groups[name]
    requires forall p | p in groups[name] :: StrLeq(p.meta.resourceVersion, latest.meta.resourceVersion)
    ensures CompactedSoFar(groups, left - {name}, log, job, r + [latest])
  {
    forall n, p | n in groups && n !in left - {name} && p in groups[n] ensures CoveredBy(p, r + [latest]) {
      if n == name {
        assert latest in r + [latest];
      } else {
        assert CoveredBy(p, r);
        var q :| q in r && q.meta.name == p.meta.name && StrLeq(p.meta.resourceVersion, q.meta.resourceVersion);
        assert q in r + [latest];
      }
    }
  }

  // What a compaction reports, on the pods themselves: started pods that name the job as an
  // owner, one of each name, and none older in string order than another logged one.
  lemma CompactionReports(log: seq<Pod>, job: string, r: seq<Pod>)
    requires Compacts(log, job, r)
    ensures forall p | p in r :: p in log && job in p.meta.owners && p.payload.startTime.Some?
    ensures forall p | p in log && job in p.meta.owners && p.payload.startTime.Some? ::
      exists q :: q in r && q.meta.name == p.meta.name && StrLeq(p.meta.resourceVersion, q.meta.resourceVersion)
    ensures forall i, j :: 0 <= i < j < |r| ==> r[i].meta.name != r[j].meta.name
  {
    forall p | p in log && job in p.meta.owners && p.payload.startTime.Some?
      ensures exists q :: q in r && q.meta.name == p.meta.name && StrLeq(p.meta.resourceVersion, q.meta.resourceVersion)
    {
      assert Eligible(p, job) && CoveredBy(p, r);
    }
  }

  // FindJobPodsForJob on the decoded log.
  method CompactLog(log: seq<Pod>, job: string) returns (r: seq<Pod>)
    ensures Compacts(log, job, r)
  {
    var groups := GroupByName(log, job);
    r := [];
    var left := groups.Keys;
    StrLeqIsTotalOrder();
    while left != {}
      invariant left <= groups.Keys
      invariant CompactedSoFar(groups, left, log, job, r)
      decreases left
    {
      var name :| name in left;
      var versions := SortFunc(groups[name], (p: Pod) => p.meta.resourceVersion, StrLeq);
      LastIsGreatest(groups[name], versions);
      var latest := versions[|versions| - 1];
      CompactOneMore(groups, left, log, job, r, name, latest);
      r := r + [latest];
      left := left - {name};
    }
  }

  lemma LastIsGreatest(s: seq<Pod>, sorted: seq<Pod>)
    requires s != []
    requires SortedPermutation(s, sorted, (p: Pod) => p.meta.resourceVersion, StrLeq)
    ensures sorted != [] && sorted[|sorted| - 1] in s
    ensures forall p | p in s :: StrLeq(p.meta.resourceVersion, sorted[|sorted| - 1].meta.resourceVersion)
  {
    assert |multiset(sorted)| == |multiset(s)|;
    var latest := sorted[|sorted| - 1];
    assert latest in multiset(s);
    var keys := Map((p: Pod) => p.meta.resourceVersion, sorted);
    forall p | p in s ensures StrLeq(p.meta.resourceVersion, latest.meta.resourceVersion) {
      assert p in multiset(sorted);
      var i :| 0 <= i < |sorted| && sorted[i] == p;
      StrLeqReflexive(keys[i]);
      assert i < |sorted| - 1 ==> StrLeq(keys[i], keys[|sorted| - 1]);
    }
  }

  // FindJobPodsForJob: a missing key reads as an empty log.
  method FindJobPodsForJob(db: DB, now: nat, fault: bool, job: Job) returns (r: Result<seq<Pod>>)
    ensures r.Ok? <==> !fault && (GetFrom(db.entries, JobPodsKey(job.meta.name), now, fault).Found? ==>
                                    db.entries[JobPodsKey(job.meta.name)].value.Pods?)
    ensures r.Ok? && HoldsLog(db.entries, job.meta.name) ==>
      Compacts(LogAt(db.entries, job.meta.name), job.meta.name, r.value)
  {
    var item := GetFrom(db.entries, JobPodsKey(job.meta.name), now, fault);
    match item {
      case NotFound =>
        var pods := CompactLog([], job.meta.name);
        r := Ok(pods);
      case Failed =>
        r := Err("sk8l#findJobPodsForJob: txn.Get() failed");
      case Found(v) =>
        if v.Pods? {
          var pods := CompactLog(v.pods, job.meta.name);
          r := Ok(pods);
        } else {
          r := Err("sk8l#findJobPodsForJob: proto.Unmarshal() failed");
        }
    }
  }

  // ---------- string order and numeric order ----------

  predicate SameGroup(log: seq<Pod>, job: string, p: Pod, q: Pod) {
    p in log && Eligible(p, job) && p.meta.name == q.meta.name
  }

  function VersionNumber(p: Pod): nat {
    if AllDigits(p.meta.resourceVersion) then Number(p.meta.resourceVersion) else 0
  }

  lemma VersionsCompare(p: Pod, q: Pod)
    requires NoLeadingZero(p.meta.resourceVersion) && NoLeadingZero(q.meta.resourceVersion)
    requires StrLeq(p.meta.resourceVersion, q.meta.resourceVersion)
    ensures VersionNumber(p) <= VersionNumber(q) <==> |p.meta.resourceVersion| <= |q.meta.resourceVersion|
  {
    var a, b := p.meta.resourceVersion, q.meta.resourceVersion;
    if |a| == |b| {
      DigitStringsOrderNumerically(a, b);
    } else if |a| < |b| {
      MoreDigitsIsLarger(a, b);
    } else {
      MoreDigitsIsLarger(b, a);
    }
  }

  // The reported version is the numerically greatest of its name if and only if none of the
  // logged versions has more digits.  Equal digit counts are the everyday case.
  lemma ReportedIsNewestIff(log: seq<Pod>, job: string, r: seq<Pod>, q: Pod)
    requires Compacts(log, job, r) && q in r
    requires forall p | p in log && Eligible(p, job) :: NoLeadingZero(p.meta.resourceVersion)
    ensures (forall p | SameGroup(log, job, p, q) :: VersionNumber(p) <= VersionNumber(q))
       <==> (forall p | SameGroup(log, job, p, q) :: |p.meta.resourceVersion| <= |q.meta.resourceVersion|)
  {
    forall p | SameGroup(log, job, p, q)
      ensures VersionNumber(p) <= VersionNumber(q) <==> |p.meta.resourceVersion| <= |q.meta.resourceVersion|
    {
      GreatestOfItsName(log, job, r, p, q);
      VersionsCompare(p, q);
    }
  }

  lemma GreatestOfItsName(log: seq<Pod>, job: string, r: seq<Pod>, p: Pod, q: Pod)
    requires Compacts(log, job, r) && q in r && SameGroup(log, job, p, q)
    ensures StrLeq(p.meta.resourceVersion, q.meta.resourceVersion)
  {
    assert CoveredBy(p, r);
    var q' :| q' in r && q'.meta.name == p.meta.name && StrLeq(p.meta.resourceVersion, q'.meta.resourceVersion);
    var i :| 0 <= i < |r| && r[i] == q;
    var j :| 0 <= j < |r| && r[j] == q';
    assert i == j;
  }

  // Where digit counts differ it fails: version 9 is reported although 10 was logged.
  lemma NineBeatsTen(p: Pod, job: string, r: seq<Pod>)
    requires Eligible(p, job)
    requires Compacts([p.(meta := p.meta.(resourceVersion := "9")), p.(meta := p.meta.(resourceVersion := "10"))], job, r)
    ensures r != [] && forall q | q in r :: q.meta.resourceVersion == "9"
  {
    var nine, ten := p.(meta := p.meta.(resourceVersion := "9")), p.(meta := p.meta.(resourceVersion := "10"));
    var log := [nine, ten];
    assert nine in log && CoveredBy(nine, r);
    assert !StrLeq("9", "10");
    forall q | q in r ensures q.meta.resourceVersion == "9" {
      assert q in log;
      GreatestOfItsName(log, job, r, nine, q);
    }
  }

  // ---------- the log over whole runs ----------

  function LogAt(m: Entries, job: string): seq<Pod> {
    if JobPodsKey(job) in m && m[JobPodsKey(job)].value.Pods? then m[JobPodsKey(job)].value.pods else []
  }

  predicate HoldsLog(m: Entries, job: string) {
    JobPodsKey(job) in m ==> m[JobPodsKey(job)].value.Pods? && m[JobPodsKey(job)].expiry.None?
  }

  function LoggedBy(s: Step, job: string): seq<Pod> {
    if s.PodStep? && JobNameLabel(s.podEvent.obj) == job then [s.podEvent.obj] else []
  }

  function LoggedPods(steps: seq<Step>, job: string): seq<Pod> {
    if steps == [] then [] else LoggedBy(steps[0], job) + LoggedPods(steps[1..], job)
  }

  lemma PodKeyOwner(s: Step, job: string)
    ensures StepKey(s) == JobPodsKey(job) <==> s.PodStep? && JobNameLabel(s.podEvent.obj) == job
  {
    KeyFamilies("", "", job);
    if s.LookupStep? && s.target.CronJobTarget? { KeyFamilies(s.target.namespace, s.target.name, ""); }
    if s.PodStep? {
      var prefix, name := "jobs_pods_for_job_", JobNameLabel(s.podEvent.obj);
      assert (prefix + name)[|prefix|..] == name && (prefix + job)[|prefix|..] == job;
    }
  }

  lemma LogGrowsByOne(m: Entries, s: Step, job: string)
    requires HoldsLog(m, job) && (s.PodStep? ==> !s.fault)
    ensures HoldsLog(After(m, s), job)
    ensures LogAt(After(m, s), job) == LogAt(m, job) + LoggedBy(s, job)
  {
    PodKeyOwner(s, job);
  }

  // The job a pod is labelled with; a pod without the label belongs to the job "".
  predicate Labelled(p: Pod, job: string) {
    if "job-name" in p.meta.labels then p.meta.labels["job-name"] == job else job == ""
  }

  // One delivery: the pod goes to the end of the log of the job it is labelled with, and every
  // other job's log stays as it is.
  lemma LoggedUnderItsLabel(m: Entries, now: nat, ev: Event<PodData>, job: string)
    requires HoldsLog(m, job)
    ensures Labelled(ev.obj, job) ==> LogAt(After(m, PodStep(now, false, ev)), job) == LogAt(m, job) + [ev.obj]
    ensures !Labelled(ev.obj, job) ==> LogAt(After(m, PodStep(now, false, ev)), job) == LogAt(m, job)
  {
    LogGrowsByOne(m, PodStep(now, false, ev), job);
  }

  // Step i delivered the pod, labelled with the job.
  predicate DeliveredAt(steps: seq<Step>, i: nat, p: Pod, job: string) {
    i < |steps| && steps[i].PodStep? && steps[i].podEvent.obj == p && Labelled(p, job)
  }

  // A job's log holds exactly the pods delivered with its label.
  lemma {:induction false} LoggedIffDelivered(steps: seq<Step>, job: string, p: Pod)
    ensures p in LoggedPods(steps, job) <==> exists i: nat :: DeliveredAt(steps, i, p, job)
  {
    if steps != [] {
      var rest := steps[1..];
      LoggedIffDelivered(rest, job, p);
      if i: nat :| DeliveredAt(rest, i, p, job) {
        assert DeliveredAt(steps, i + 1, p, job);
      }
      if i: nat :| DeliveredAt(steps, i, p, job) && i > 0 {
        assert DeliveredAt(rest, i - 1, p, job);
      }
      if p in LoggedBy(steps[0], job) {
        assert DeliveredAt(steps, 0, p, job);
      }
    }
  }

  // Over any run whose pod transactions read their key without fault, the log is append-only
  // and gains every version labelled with the job, whatever the event types.
  lemma {:induction false} LogIsAppendOnly(m: Entries, steps: seq<Step>, job: string)
    requires HoldsLog(m, job)
    requires forall s | s in steps && s.PodStep? :: !s.fault
    ensures HoldsLog(RunSteps(m, steps), job)
    ensures LogAt(RunSteps(m, steps), job) == LogAt(m, job) + LoggedPods(steps, job)
    decreases steps
  {
    if steps != [] {
      var s, rest := steps[0], steps[1..];
      LogGrowsByOne(m, s, job);
      LogIsAppendOnly(After(m, s), rest, job);
      ConcatAssociative(LogAt(m, job), LoggedBy(s, job), LoggedPods(rest, job));
    }
  }

  // A reader who looks again later sees every pod again, at the same or a greater version.
  lemma PodViewOnlyMovesForward(m: Entries, steps: seq<Step>, job: string, before: seq<Pod>, later: seq<Pod>)
    requires HoldsLog(m, job)
    requires forall s | s in steps && s.PodStep? :: !s.fault
    requires Compacts(LogAt(m, job), job, before)
    requires Compacts(LogAt(RunSteps(m, steps), job), job, later)
    ensures forall p | p in before :: CoveredBy(p, later)
  {
    LogIsAppendOnly(m, steps, job);
  }

  // From an empty store, a read returns the compaction of exactly the versions labelled with
  // the job: one pod per name, none invented, none superseded in string order.
  lemma ReadsCompactTheEvents(steps: seq<Step>, job: string, r: seq<Pod>)
    requires forall s | s in steps && s.PodStep? :: !s.fault
    requires Compacts(LogAt(RunSteps(map[], steps), job), job, r)
    ensures Compacts(LoggedPods(steps, job), job, r)
  {
    LogIsAppendOnly(map[], steps, job);
    assert [] + LoggedPods(steps, job) == LoggedPods(steps, job);
  }

  // A Get that fails otherwise starts the log anew; nothing is lost if and only if the log was
  // empty or held just that pod.
  lemma FailedGetKeepsLogIff(m: Entries, now: nat, ev: Event<PodData>)
    requires HoldsLog(m, JobNameLabel(ev.obj))
    ensures LogAt(m, JobNameLabel(ev.obj)) <= LogAt(After(m, PodStep(now, true, ev)), JobNameLabel(ev.obj)) <==>
            LogAt(m, JobNameLabel(ev.obj)) == [] || LogAt(m, JobNameLabel(ev.obj)) == [ev.obj]
  {
    var log := LogAt(m, JobNameLabel(ev.obj));
    if log <= [ev.obj] && log != [] {
      assert log == [ev.obj];
    }
  }
}
