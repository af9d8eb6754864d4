// End to end: from the decoded job list, its owner index and the logged pods to the failed flag
// of a cronjob and to the published totals.
module Pipeline {
  import opened Common
  import opened Rfc3339
  import opened Objects
  import opened Responses
  import opened JobStatus
  import opened Cronjobs
  import Derive
  import EventList
  import Metrics
  import Owners
  import PodLog
  import Store
  import Strings
  import Watch

  // pods(j) is the pod list read for job j, [] when the read fails.
  type PodView = Job -> seq<Pod>

  // clock(name, k) is the time at which the k-th job of the named cronjob's bucket is measured.
  type Clock = (string, nat) -> Time

  // What one round reads: the decoded jobs, their owner index, the pods and the clock.
  datatype Round = Round(jobs: seq<Job>, mapped: map<string, seq<nat>>, pods: PodView, clock: Clock)

  ghost predicate Indexed(r: Round) { Owners.IsIndex(r.mapped, r.jobs) }

  ghost predicate IsResponseOf(j: Job, pods: PodView, r: JobResponse) {
    exists now :: IsJobResponse(j, pods(j), now, r)
  }

  // resps answers, one by one, for the jobs the cronjob's bucket points at.
  ghost predicate Answers(cj: CronJob, round: Round, resps: seq<JobResponse>) {
    var bucket := Owners.JobsForCronjob(round.mapped, cj.meta.name);
    |resps| == |bucket| && forall k :: 0 <= k < |bucket| ==> AnswersAt(cj, round, bucket[k], k, resps[k])
  }

  ghost predicate AnswersAt(cj: CronJob, round: Round, i: nat, k: nat, r: JobResponse) {
    i < |round.jobs| && IsJobResponse(round.jobs[i], round.pods(round.jobs[i]), round.clock(cj.meta.name, k), r)
  }

  // c is a response cronJobResponse may give for cj in this round.
  ghost predicate IsAnswer(cj: CronJob, round: Round, c: CronjobResponse) {
    exists resps :: Answers(cj, round, resps) && IsCronjobResponse(cj, resps, c)
  }

  ghost predicate AllAnswer(cronjobs: seq<CronJob>, round: Round, cs: seq<CronjobResponse>) {
    |cs| == |cronjobs| && forall i :: 0 <= i < |cs| ==> IsAnswer(cronjobs[i], round, cs[i])
  }

  // resps answers, one by one, for the jobs that name the cronjob as an owner.
  ghost predicate AnswersOwned(cj: CronJob, jobs: seq<Job>, pods: PodView, resps: seq<JobResponse>) {
    var owned := Owners.OwnedJobs(jobs, cj.meta.name);
    |resps| == |owned| && forall k :: 0 <= k < |owned| ==> IsResponseOf(owned[k], pods, resps[k])
  }

  // The index reaches exactly the owned jobs.
  lemma IndexReachesOwned(cj: CronJob, round: Round, resps: seq<JobResponse>)
    requires Indexed(round) && Answers(cj, round, resps)
    ensures AnswersOwned(cj, round.jobs, round.pods, resps)
  {
    var bucket, owned := Owners.Bucket(round.jobs, cj.meta.name), Owners.OwnedJobs(round.jobs, cj.meta.name);
    assert Owners.JobsForCronjob(round.mapped, cj.meta.name) == bucket;
    Owners.BucketPointsAtOwnedJobs(round.jobs, cj.meta.name);
    forall k | 0 <= k < |owned| ensures IsResponseOf(owned[k], round.pods, resps[k]) {
      assert AnswersAt(cj, round, bucket[k], k, resps[k]);
    }
  }

  // One round has one response for each job of a bucket.
  lemma AnswersAreDetermined(cj: CronJob, round: Round, a: seq<JobResponse>, b: seq<JobResponse>)
    requires Answers(cj, round, a) && Answers(cj, round, b)
    ensures a == b
  {
    var bucket := Owners.JobsForCronjob(round.mapped, cj.meta.name);
    forall k | 0 <= k < |bucket| ensures a[k] == b[k] {
      assert AnswersAt(cj, round, bucket[k], k, a[k]) && AnswersAt(cj, round, bucket[k], k, b[k]);
      var j := round.jobs[bucket[k]];
      JobResponseIsDetermined(j, round.pods(j), round.clock(cj.meta.name, k), a[k], b[k]);
    }
  }

  // ---------- flags ----------

  function FailsWith(pods: PodView): Job -> bool { (j: Job) => JobFails(j, pods(j)) }

  predicate HasCompleted(j: Job) { !Unset(j.payload.completionTime) }

  predicate IsRunningJob(j: Job) { j.payload.active > 0 }

  lemma FlagsOfResponse(j: Job, pods: PodView, r: JobResponse)
    requires IsResponseOf(j, pods, r)
    ensures Metrics.JobIsFailed(r) == FailsWith(pods)(j)
    ensures Metrics.JobIsCompleted(r) == HasCompleted(j)
    ensures IsActive(r) == IsRunningJob(j)
  {
    var now :| IsJobResponse(j, pods(j), now, r);
    JobFailedIff(j, pods(j), now, r);
    if HasCompleted(j) { FormatIsNotEmpty(j.payload.completionTime.value); }
  }

  lemma FailedFlagOfFan(cj: CronJob, resps: seq<JobResponse>, c: CronjobResponse)
    requires IsCronjobResponse(cj, resps, c)
    ensures multiset(c.jobs) == multiset(resps)
    ensures c.failed <==> exists r :: r in resps && Metrics.JobIsFailed(r)
  {
    var f :| IsFanResult(resps, f) && Assembles(cj, f, c);
    FanResultJobs(resps, f);
    assert forall r :: r in f.jobs <==> r in multiset(f.jobs);
    assert forall r :: r in resps <==> r in multiset(resps);
  }

  lemma {:induction false} ReferencedIff(owners: seq<string>, o: string)
    ensures Owners.References(owners, o) > 0 <==> o in owners
  {
    if owners != [] {
      ReferencedIff(owners[1..], o);
      assert ColumnOf(Owners.Hit, o)(owners[0]) == Owners.Hit(owners[0], o);
    }
  }

  lemma {:induction false} OwnedIff(jobs: seq<Job>, o: string, j: Job)
    ensures j in Owners.OwnedJobs(jobs, o) <==> j in jobs && o in j.meta.owners
  {
    if jobs != [] {
      var front, last := jobs[..|jobs| - 1], jobs[|jobs| - 1];
      OwnedIff(front, o, j);
      ReferencedIff(last.meta.owners, o);
      Owners.RepeatElements(last, Owners.References(last.meta.owners, o));
      assert jobs == front + [last];
    }
  }

  // A flag of the responses that is a property of the jobs is raised by one of the jobs.
  lemma SomeFlagIff(p: Job -> bool, q: JobResponse -> bool, cj: CronJob, jobs: seq<Job>, pods: PodView, resps: seq<JobResponse>)
    requires AnswersOwned(cj, jobs, pods, resps)
    requires forall j, r :: IsResponseOf(j, pods, r) ==> q(r) == p(j)
    ensures (exists r :: r in resps && q(r)) <==> exists j :: j in Owners.OwnedJobs(jobs, cj.meta.name) && p(j)
  {
    SomeAgree(resps, Owners.OwnedJobs(jobs, cj.meta.name), q, p);
  }

  lemma SomeOwnedJobFails(cj: CronJob, round: Round, c: CronjobResponse)
    requires Indexed(round) && IsAnswer(cj, round, c)
    ensures c.failed <==> exists j :: j in Owners.OwnedJobs(round.jobs, cj.meta.name) && FailsWith(round.pods)(j)
  {
    var resps: seq<JobResponse> :| Answers(cj, round, resps) && IsCronjobResponse(cj, resps, c);
    IndexReachesOwned(cj, round, resps);
    FailedFlagOfFan(cj, resps, c);
    forall j, r | IsResponseOf(j, round.pods, r) ensures Metrics.JobIsFailed(r) == FailsWith(round.pods)(j) {
      FlagsOfResponse(j, round.pods, r);
    }
    SomeFlagIff(FailsWith(round.pods), Metrics.JobIsFailed, cj, round.jobs, round.pods, resps);
  }

  // A cronjob response is failed if and only if some job that names the cronjob as an owner has
  // a condition of type Failed, or a reported pod with a container of any class that waits on a
  // configuration error or terminated with an error.
  lemma CronjobFailedIff(cj: CronJob, round: Round, c: CronjobResponse)
    requires Indexed(round) && IsAnswer(cj, round, c)
    ensures c.failed <==> exists j :: j in round.jobs && cj.meta.name in j.meta.owners && JobFails(j, round.pods(j))
  {
    SomeOwnedJobFails(cj, round, c);
    forall j ensures j in Owners.OwnedJobs(round.jobs, cj.meta.name) && FailsWith(round.pods)(j) <==>
                     j in round.jobs && cj.meta.name in j.meta.owners && JobFails(j, round.pods(j)) {
      OwnedIff(round.jobs, cj.meta.name, j);
    }
  }

  // ---------- down to the logged versions ----------

  // The round read its pods from the store that a run of all writers left behind.
  ghost predicate ReadsAfter(round: Round, steps: seq<Store.Step>) {
    forall j :: j in round.jobs ==>
      PodLog.Compacts(PodLog.LogAt(Store.RunSteps(map[], steps), j.meta.name), j.meta.name, round.pods(j))
  }

  // A logged version of a pod of the job that no other version string of the same pod exceeds.
  ghost predicate IsLatest(log: seq<Pod>, job: string, p: Pod) {
    && p in log && PodLog.Eligible(p, job)
    && forall q :: PodLog.SameGroup(log, job, q, p) ==> Strings.StrLeq(q.meta.resourceVersion, p.meta.resourceVersion)
  }

  ghost predicate Reports(r: seq<Pod>, name: string) { exists q :: q in r && q.meta.name == name }

  // Every reported pod is a latest version, and every latest version is reported by name.
  lemma ReportedAreLatest(log: seq<Pod>, job: string, r: seq<Pod>)
    requires PodLog.Compacts(log, job, r)
    ensures forall q :: q in r ==> IsLatest(log, job, q)
    ensures forall p :: IsLatest(log, job, p) ==> Reports(r, p.meta.name)
  {
    forall q | q in r ensures IsLatest(log, job, q) {
      forall p | PodLog.SameGroup(log, job, p, q) ensures Strings.StrLeq(p.meta.resourceVersion, q.meta.resourceVersion) {
        PodLog.GreatestOfItsName(log, job, r, p, q);
      }
    }
    forall p | IsLatest(log, job, p) ensures Reports(r, p.meta.name) {
      assert PodLog.CoveredBy(p, r);
    }
  }

  lemma SomeReportedIff(log: seq<Pod>, job: string, r: seq<Pod>, p: Pod -> bool)
    requires forall q :: q in r ==> IsLatest(log, job, q)
    requires forall x :: IsLatest(log, job, x) ==> Reports(r, x.meta.name)
    requires forall x, y :: IsLatest(log, job, x) && IsLatest(log, job, y) && x.meta.name == y.meta.name ==> p(x) == p(y)
    ensures (exists x :: x in r && p(x)) <==> exists x :: IsLatest(log, job, x) && p(x)
  {
    if x :| IsLatest(log, job, x) && p(x) {
      assert Reports(r, x.meta.name);
      var y :| y in r && y.meta.name == x.meta.name;
      assert p(y);
    }
  }

  // Some watch event carried this version: the pod is labelled with the job, names it as an owner
  // and has started.
  ghost predicate Delivers(steps: seq<Store.Step>, job: string, p: Pod) {
    && (exists i: nat :: PodLog.DeliveredAt(steps, i, p, job))
    && job in p.meta.owners && p.payload.startTime.Some?
  }

  // A delivered version that no other delivered version string of the same pod exceeds.
  ghost predicate LatestDelivered(steps: seq<Store.Step>, job: string, p: Pod) {
    && Delivers(steps, job, p)
    && forall q :: Delivers(steps, job, q) && q.meta.name == p.meta.name
         ==> Strings.StrLeq(q.meta.resourceVersion, p.meta.resourceVersion)
  }

  // Latest versions of one pod with one version string agree on whether a container fails.
  ghost predicate LatestAgree(steps: seq<Store.Step>, job: string) {
    forall p, q :: LatestDelivered(steps, job, p) && LatestDelivered(steps, job, q) && p.meta.name == q.meta.name
      ==> HasErrorState(p) == HasErrorState(q)
  }

  lemma LatestIsLatestDelivered(steps: seq<Store.Step>, job: string, p: Pod)
    ensures IsLatest(PodLog.LoggedPods(steps, job), job, p) <==> LatestDelivered(steps, job, p)
  {
    var log := PodLog.LoggedPods(steps, job);
    forall q ensures q in log && PodLog.Eligible(q, job) <==> Delivers(steps, job, q) {
      PodLog.LoggedIffDelivered(steps, job, q);
    }
    forall q ensures PodLog.SameGroup(log, job, q, p) <==> Delivers(steps, job, q) && q.meta.name == p.meta.name {}
  }

  // The job's own failure, with the pod versions as the watch delivered them.
  ghost predicate FailsByEvents(j: Job, steps: seq<Store.Step>) {
    || (exists c :: c in j.payload.conditions && c.kind == "Failed")
    || (exists p :: LatestDelivered(steps, j.meta.name, p) && HasErrorState(p))
  }

  lemma JobFailsByEvents(j: Job, steps: seq<Store.Step>, pods: seq<Pod>)
    requires forall s | s in steps && s.PodStep? :: !s.fault
    requires PodLog.Compacts(PodLog.LogAt(Store.RunSteps(map[], steps), j.meta.name), j.meta.name, pods)
    requires LatestAgree(steps, j.meta.name)
    ensures JobFails(j, pods) <==> FailsByEvents(j, steps)
  {
    var log := PodLog.LoggedPods(steps, j.meta.name);
    PodLog.ReadsCompactTheEvents(steps, j.meta.name, pods);
    ReportedAreLatest(log, j.meta.name, pods);
    forall p ensures IsLatest(log, j.meta.name, p) <==> LatestDelivered(steps, j.meta.name, p) {
      LatestIsLatestDelivered(steps, j.meta.name, p);
    }
    SomeReportedIff(log, j.meta.name, pods, HasErrorState);
    forall p: Pod ensures HasErrorState(p) <==> Derive.HasFailingContainer(p) { ErrorStatesFail(p); }
    assert forall c :: FailedCondition(c) <==> c.kind == "Failed";
  }

  // From the watch events to the flag: over every run of all writers on an empty store in which
  // no Get of the pod collector fails, a cronjob response is failed if and only if some job that
  // names the cronjob as an owner has a condition of type Failed or a latest delivered pod
  // version with a failing container.
  lemma CronjobFailsByEventsIff(cj: CronJob, round: Round, steps: seq<Store.Step>, c: CronjobResponse)
    requires Indexed(round) && IsAnswer(cj, round, c) && ReadsAfter(round, steps)
    requires forall s | s in steps && s.PodStep? :: !s.fault
    requires forall j | j in round.jobs :: LatestAgree(steps, j.meta.name)
    ensures c.failed <==> exists j :: j in round.jobs && cj.meta.name in j.meta.owners && FailsByEvents(j, steps)
  {
    CronjobFailedIff(cj, round, c);
    forall j | j in round.jobs ensures JobFails(j, round.pods(j)) <==> FailsByEvents(j, steps) {
      JobFailsByEvents(j, steps, round.pods(j));
    }
  }

  // ---------- the pods of a cronjob ----------

  // Some job that names the cronjob as an owner was read with this pod, and p answers for it.
  ghost predicate AnswersForPod(cj: CronJob, round: Round, q: Pod, p: PodResponse) {
    && (exists j :: j in round.jobs && cj.meta.name in j.meta.owners && q in round.pods(j))
    && Derive.IsPodResponse(q, p)
  }

  lemma PodOfResponse(j: Job, pods: PodView, r: JobResponse, p: PodResponse)
    requires IsResponseOf(j, pods, r)
    ensures p in r.pods <==> exists q :: q in pods(j) && Derive.IsPodResponse(q, p)
  {
    if p in r.pods {
      var i :| 0 <= i < |r.pods| && r.pods[i] == p;
      assert pods(j)[i] in pods(j) && Derive.IsPodResponse(pods(j)[i], p);
    }
    if q :| q in pods(j) && Derive.IsPodResponse(q, p) {
      var i :| 0 <= i < |pods(j)| && pods(j)[i] == q;
      Derive.PodResponseIsDetermined(q, p, r.pods[i]);
    }
  }

  // The pod p of response k answers for a pod that was read for job k.
  lemma PodIsRead(cj: CronJob, round: Round, resps: seq<JobResponse>, k: nat, p: PodResponse) returns (q: Pod)
    requires AnswersOwned(cj, round.jobs, round.pods, resps) && k < |resps| && p in resps[k].pods
    ensures AnswersForPod(cj, round, q, p)
  {
    var j := Owners.OwnedJobs(round.jobs, cj.meta.name)[k];
    assert IsResponseOf(j, round.pods, resps[k]);
    PodOfResponse(j, round.pods, resps[k], p);
    q :| q in round.pods(j) && Derive.IsPodResponse(q, p);
    OwnedIff(round.jobs, cj.meta.name, j);
  }

  lemma PodIsAnswered(cj: CronJob, round: Round, resps: seq<JobResponse>, q: Pod, p: PodResponse) returns (k: nat)
    requires AnswersOwned(cj, round.jobs, round.pods, resps) && AnswersForPod(cj, round, q, p)
    ensures k < |resps| && p in resps[k].pods
  {
    var j :| j in round.jobs && cj.meta.name in j.meta.owners && q in round.pods(j);
    OwnedIff(round.jobs, cj.meta.name, j);
    k :| 0 <= k < |Owners.OwnedJobs(round.jobs, cj.meta.name)| && Owners.OwnedJobs(round.jobs, cj.meta.name)[k] == j;
    assert IsResponseOf(j, round.pods, resps[k]);
    PodOfResponse(j, round.pods, resps[k], p);
  }

  lemma PodsOfAnswers(cj: CronJob, round: Round, resps: seq<JobResponse>, p: PodResponse)
    requires AnswersOwned(cj, round.jobs, round.pods, resps)
    ensures (exists r :: r in resps && p in r.pods) <==> exists q :: AnswersForPod(cj, round, q, p)
  {
    if r :| r in resps && p in r.pods {
      var k: nat :| k < |resps| && resps[k] == r;
      var q := PodIsRead(cj, round, resps, k, p);
    }
    if q :| AnswersForPod(cj, round, q, p) {
      var k := PodIsAnswered(cj, round, resps, q, p);
      assert resps[k] in resps;
    }
  }

  // Over every schedule: the pods of a cronjob response are those of the jobs that name the
  // cronjob, and the running ones are exactly those in phase Running.
  lemma RunningPodsIff(cj: CronJob, round: Round, c: CronjobResponse, p: PodResponse)
    requires Indexed(round) && IsAnswer(cj, round, c)
    ensures p in c.jobsPods <==> exists q :: AnswersForPod(cj, round, q, p)
    ensures p in c.runningJobsPods <==> exists q :: AnswersForPod(cj, round, q, p) && q.payload.phase == "Running"
  {
    var resps: seq<JobResponse> :| Answers(cj, round, resps) && IsCronjobResponse(cj, resps, c);
    IndexReachesOwned(cj, round, resps);
    ResponseHoldsPods(cj, resps, c);
    PodsOfAnswers(cj, round, resps, p);
    if q :| AnswersForPod(cj, round, q, p) { Derive.ReasonsExplainFailures(q, p); }
    forall q | AnswersForPod(cj, round, q, p) ensures q.payload.phase == p.phase {
      Derive.ReasonsExplainFailures(q, p);
    }
  }

  // The pods GetCronjobPods sends stand in the order in which the pods started, unset times
  // first.
  lemma SentPodsAreInStartOrder(cj: CronJob, round: Round, sent: seq<PodResponse>, i: nat, j: nat, a: Pod, b: Pod)
    requires InStartOrder(sent) && i < j < |sent|
    requires AnswersForPod(cj, round, a, sent[i]) && AnswersForPod(cj, round, b, sent[j])
    requires Writable(a.payload.startTime) && Writable(b.payload.startTime)
    ensures !Before(b.payload.startTime, a.payload.startTime)
  {
    assert PrintedStart(sent[i], a.payload.startTime) && PrintedStart(sent[j], b.payload.startTime);
  }

  // ---------- counting pairs of a cronjob and an owner reference ----------

  function Weighted(p: Job -> bool): (CronJob, Job) -> nat {
    (cj: CronJob, j: Job) => if p(j) then Owners.JobReferences(j, cj.meta.name) else 0
  }

  // The number of (cronjob, owner reference) pairs whose job satisfies p.
  function Pairs(p: Job -> bool, cronjobs: seq<CronJob>, jobs: seq<Job>): nat {
    Sum(RowSums(Weighted(p), jobs), cronjobs)
  }

  // The number does not depend on the order of the cronjobs or of the jobs.
  lemma PairsIgnoreOrder(p: Job -> bool, cronjobs: seq<CronJob>, jobs: seq<Job>, cronjobs': seq<CronJob>, jobs': seq<Job>)
    requires multiset(cronjobs) == multiset(cronjobs') && multiset(jobs) == multiset(jobs')
    ensures Pairs(p, cronjobs, jobs) == Pairs(p, cronjobs', jobs')
  {
    SumPermutation(RowSums(Weighted(p), jobs), cronjobs, cronjobs');
    forall cj ensures RowSums(Weighted(p), jobs)(cj) == RowSums(Weighted(p), jobs')(cj) {
      SumPermutation(RowOf(Weighted(p), cj), jobs, jobs');
    }
    SumAgree(RowSums(Weighted(p), jobs), RowSums(Weighted(p), jobs'), cronjobs');
  }

  lemma {:induction false} CountRepeat(p: Job -> bool, j: Job, n: nat)
    ensures Count(p, Owners.Repeat(j, n)) == if p(j) then n else 0
  {
    if n > 0 {
      CountRepeat(p, j, n - 1);
      var r := Owners.Repeat(j, n);
      Owners.RepeatElements(j, n);
      CountOneMore(p, r, n - 1);
      assert r[..n - 1 + 1] == r && r[..n - 1] == Owners.Repeat(j, n - 1);
    }
  }

  // Counting over the owned jobs is counting owner references.
  lemma {:induction false} OwnedCountIsReferences(p: Job -> bool, jobs: seq<Job>, cj: CronJob)
    ensures Count(p, Owners.OwnedJobs(jobs, cj.meta.name)) == Sum(RowOf(Weighted(p), cj), jobs)
  {
    if jobs != [] {
      var last, o := |jobs| - 1, cj.meta.name;
      var front := Owners.OwnedJobs(jobs[..last], o);
      var more := Owners.Repeat(jobs[last], Owners.References(jobs[last].meta.owners, o));
      OwnedCountIsReferences(p, jobs[..last], cj);
      CountRepeat(p, jobs[last], Owners.References(jobs[last].meta.owners, o));
      CountConcat(p, front, more);
      SumOneMore(RowOf(Weighted(p), cj), jobs, last);
      assert jobs[..last + 1] == jobs;
    }
  }

  lemma {:induction false} CountAgrees<A, B>(p: A -> bool, q: B -> bool, a: seq<A>, b: seq<B>)
    requires |a| == |b| && forall k :: 0 <= k < |a| ==> p(a[k]) == q(b[k])
    ensures Count(p, a) == Count(q, b)
  {
    if a != [] { CountAgrees(p, q, a[1..], b[1..]); }
  }

  // ---------- the published totals ----------

  lemma {:induction false} CountIsFilterLength<T>(p: T -> bool, s: seq<T>)
    ensures |Filter(p, s)| == Count(p, s)
  {
    if s != [] { CountIsFilterLength(p, s[1..]); }
  }

  lemma RunningIsActiveCount(cj: CronJob, resps: seq<JobResponse>, c: CronjobResponse)
    requires IsCronjobResponse(cj, resps, c)
    ensures Metrics.Running(c) == Count(IsActive, resps)
  {
    var f :| IsFanResult(resps, f) && Assembles(cj, f, c);
    FanResultJobs(resps, f);
    assert |multiset(c.runningJobs)| == |multiset(Filter(IsActive, resps))|;
    CountIsFilterLength(IsActive, resps);
  }

  // A flag of the responses that is a property of the jobs counts owner references.
  lemma FlagCountsReferences(
    p: Job -> bool, q: JobResponse -> bool, cj: CronJob, jobs: seq<Job>, pods: PodView, resps: seq<JobResponse>)
    requires AnswersOwned(cj, jobs, pods, resps)
    requires forall j, r :: IsResponseOf(j, pods, r) ==> q(r) == p(j)
    ensures Count(q, resps) == RowSums(Weighted(p), jobs)(cj)
  {
    CountAgrees(q, p, resps, Owners.OwnedJobs(jobs, cj.meta.name));
    OwnedCountIsReferences(p, jobs, cj);
  }

  lemma FailingOfAnswer(cj: CronJob, round: Round, c: CronjobResponse)
    requires Indexed(round) && IsAnswer(cj, round, c)
    ensures Metrics.Failing(c) == RowSums(Weighted(FailsWith(round.pods)), round.jobs)(cj)
  {
    var resps: seq<JobResponse> :| Answers(cj, round, resps) && IsCronjobResponse(cj, resps, c);
    IndexReachesOwned(cj, round, resps);
    FailedFlagOfFan(cj, resps, c);
    CountPermutation(Metrics.JobIsFailed, c.jobs, resps);
    forall j, r | IsResponseOf(j, round.pods, r) ensures Metrics.JobIsFailed(r) == FailsWith(round.pods)(j) {
      FlagsOfResponse(j, round.pods, r);
    }
    FlagCountsReferences(FailsWith(round.pods), Metrics.JobIsFailed, cj, round.jobs, round.pods, resps);
  }

  lemma CompletedOfAnswer(cj: CronJob, round: Round, c: CronjobResponse)
    requires Indexed(round) && IsAnswer(cj, round, c)
    ensures Metrics.Completed(c) == RowSums(Weighted(HasCompleted), round.jobs)(cj)
  {
    var resps: seq<JobResponse> :| Answers(cj, round, resps) && IsCronjobResponse(cj, resps, c);
    IndexReachesOwned(cj, round, resps);
    FailedFlagOfFan(cj, resps, c);
    CountPermutation(Metrics.JobIsCompleted, c.jobs, resps);
    forall j, r | IsResponseOf(j, round.pods, r) ensures Metrics.JobIsCompleted(r) == HasCompleted(j) {
      FlagsOfResponse(j, round.pods, r);
    }
    FlagCountsReferences(HasCompleted, Metrics.JobIsCompleted, cj, round.jobs, round.pods, resps);
  }

  lemma RunningOfAnswer(cj: CronJob, round: Round, c: CronjobResponse)
    requires Indexed(round) && IsAnswer(cj, round, c)
    ensures Metrics.Running(c) == RowSums(Weighted(IsRunningJob), round.jobs)(cj)
  {
    var resps: seq<JobResponse> :| Answers(cj, round, resps) && IsCronjobResponse(cj, resps, c);
    IndexReachesOwned(cj, round, resps);
    RunningIsActiveCount(cj, resps, c);
    forall j, r | IsResponseOf(j, round.pods, r) ensures IsActive(r) == IsRunningJob(j) {
      FlagsOfResponse(j, round.pods, r);
    }
    FlagCountsReferences(IsRunningJob, IsActive, cj, round.jobs, round.pods, resps);
  }

  lemma {:induction false} SumOfAnswers(
    f: CronjobResponse -> nat, g: CronJob -> nat, cs: seq<CronjobResponse>, cronjobs: seq<CronJob>)
    requires |cs| == |cronjobs| && forall i :: 0 <= i < |cs| ==> f(cs[i]) == g(cronjobs[i])
    ensures Sum(f, cs) == Sum(g, cronjobs)
  {
    if cs != [] {
      SumOfAnswers(f, g, cs[1..], cronjobs[1..]);
    }
  }

  // The totals a round publishes for the responses GetCronjobs sent count pairs of a cronjob
  // and an owner reference: failed, completed and running jobs; and registered cronjobs.
  lemma PublishedTotals(cronjobs: seq<CronJob>, round: Round, cs: seq<CronjobResponse>, sent: seq<CronjobResponse>)
    requires Indexed(round) && AllAnswer(cronjobs, round, cs)
    requires IsCronjobsResponse(cs, sent)
    ensures |sent| == |cronjobs|
    ensures Sum(Metrics.Failing, sent) == Pairs(FailsWith(round.pods), cronjobs, round.jobs)
    ensures Sum(Metrics.Completed, sent) == Pairs(HasCompleted, cronjobs, round.jobs)
    ensures Sum(Metrics.Running, sent) == Pairs(IsRunningJob, cronjobs, round.jobs)
  {
    CronjobsResponseFacts(cs, sent);
    assert |multiset(sent)| == |multiset(cs)|;
    forall i | 0 <= i < |cs|
      ensures Metrics.Failing(cs[i]) == RowSums(Weighted(FailsWith(round.pods)), round.jobs)(cronjobs[i])
      ensures Metrics.Completed(cs[i]) == RowSums(Weighted(HasCompleted), round.jobs)(cronjobs[i])
      ensures Metrics.Running(cs[i]) == RowSums(Weighted(IsRunningJob), round.jobs)(cronjobs[i])
    {
      FailingOfAnswer(cronjobs[i], round, cs[i]);
      CompletedOfAnswer(cronjobs[i], round, cs[i]);
      RunningOfAnswer(cronjobs[i], round, cs[i]);
    }
    SumPermutation(Metrics.Failing, sent, cs);
    SumPermutation(Metrics.Completed, sent, cs);
    SumPermutation(Metrics.Running, sent, cs);
    SumOfAnswers(Metrics.Failing, RowSums(Weighted(FailsWith(round.pods)), round.jobs), cs, cronjobs);
    SumOfAnswers(Metrics.Completed, RowSums(Weighted(HasCompleted), round.jobs), cs, cronjobs);
    SumOfAnswers(Metrics.Running, RowSums(Weighted(IsRunningJob), round.jobs), cs, cronjobs);
  }

  // ---------- the stored list and the answers ----------

  ghost predicate AnswersWith(cj: CronJob, round: Round, resps: seq<JobResponse>, c: CronjobResponse) {
    Answers(cj, round, resps) && IsCronjobResponse(cj, resps, c)
  }

  ghost predicate AllAnswerWith(cronjobs: seq<CronJob>, round: Round, rss: seq<seq<JobResponse>>, cs: seq<CronjobResponse>) {
    |rss| == |cs| == |cronjobs| && forall i :: 0 <= i < |cs| ==> AnswersWith(cronjobs[i], round, rss[i], cs[i])
  }

  // The job responses behind a response of the round.
  ghost function InputOf(cj: CronJob, round: Round, c: CronjobResponse): (resps: seq<JobResponse>)
    requires IsAnswer(cj, round, c)
    ensures AnswersWith(cj, round, resps, c)
  {
    var resps: seq<JobResponse> :| Answers(cj, round, resps) && IsCronjobResponse(cj, resps, c);
    resps
  }

  lemma InputsOf(cronjobs: seq<CronJob>, round: Round, cs: seq<CronjobResponse>) returns (rss: seq<seq<JobResponse>>)
    requires AllAnswer(cronjobs, round, cs)
    ensures AllAnswerWith(cronjobs, round, rss, cs)
  {
    rss := seq(|cs|, i requires 0 <= i < |cs| => InputOf(cronjobs[i], round, cs[i]));
  }

  // The jobs in the bucket of this cronjob were created in different seconds.
  ghost predicate CreatedApart(round: Round, name: string) {
    DistinctKeys(Owners.OwnedJobs(round.jobs, name), CreationSecond)
  }

  // The creation second as the sorts see it; CreatedAtIsCreation says when it is the real one.
  function CreationSecond(j: Job): int { ParseOrZero(Format(j.meta.creation)).sec }

  lemma CreatedApartAnswers(cj: CronJob, round: Round, resps: seq<JobResponse>)
    requires Indexed(round) && Answers(cj, round, resps) && CreatedApart(round, cj.meta.name)
    ensures DistinctKeys(resps, CreatedAt)
  {
    IndexReachesOwned(cj, round, resps);
    var owned := Owners.OwnedJobs(round.jobs, cj.meta.name);
    forall k | 0 <= k < |owned| ensures CreatedAt(resps[k]) == CreationSecond(owned[k]) {
      assert IsResponseOf(owned[k], round.pods, resps[k]);
    }
  }

  lemma ApartHasDistinctTimes(cronjobs: seq<CronJob>, round: Round, rss: seq<seq<JobResponse>>, name: string)
    requires Indexed(round) && |rss| == |cronjobs|
    requires forall i :: 0 <= i < |rss| ==> Answers(cronjobs[i], round, rss[i])
    requires (exists i :: 0 <= i < |cronjobs| && cronjobs[i].meta.name == name) && CreatedApart(round, name)
    ensures HasDistinctTimes(cronjobs, rss, name)
  {
    var i :| 0 <= i < |cronjobs| && cronjobs[i].meta.name == name;
    CreatedApartAnswers(cronjobs[i], round, rss[i]);
  }

  // Two rounds that read the same, each with its own schedules, send the same contents name by
  // name; and the same job lists and durations for a cronjob whose jobs were created apart.
  lemma RoundsAgree(cronjobs: seq<CronJob>, round: Round, cs1: seq<CronjobResponse>, cs2: seq<CronjobResponse>,
                    sent1: seq<CronjobResponse>, sent2: seq<CronjobResponse>)
    requires Distinguishable(cronjobs) && Indexed(round)
    requires AllAnswer(cronjobs, round, cs1) && AllAnswer(cronjobs, round, cs2)
    requires IsCronjobsResponse(cs1, sent1) && IsCronjobsResponse(cs2, sent2)
    ensures |sent1| == |cronjobs| == |sent2|
    ensures Sorted(Strings.StrLeq, Map(LowerName, sent1)) && Map(LowerName, sent1) == Map(LowerName, sent2)
    ensures forall k :: 0 <= k < |sent1| ==> SameContents(sent1[k], sent2[k])
    ensures forall k :: 0 <= k < |sent1| && CreatedApart(round, sent1[k].name) ==> SameJobs(sent1[k], sent2[k])
  {
    var rss := SharedInputs(cronjobs, round, cs1, cs2);
    CronjobsAreScheduleIndependent(cronjobs, rss, sent1, sent2);
    forall k | 0 <= k < |sent1| && CreatedApart(round, sent1[k].name) ensures SameJobs(sent1[k], sent2[k]) {
      SentIsListed(cronjobs, rss, cs1, sent1, k);
      ApartHasDistinctTimes(cronjobs, round, rss, sent1[k].name);
    }
  }

  lemma SentIsListed(
    cronjobs: seq<CronJob>, rss: seq<seq<JobResponse>>, cs: seq<CronjobResponse>, sent: seq<CronjobResponse>, k: nat)
    requires Distinguishable(cronjobs) && BuiltFrom(cronjobs, rss, cs) && IsCronjobsResponse(cs, sent) && k < |sent|
    ensures exists i :: 0 <= i < |cronjobs| && cronjobs[i].meta.name == sent[k].name
  {
    BuiltNames(cronjobs, rss, cs);
    var i := SentPosition(cronjobs, cs, cs, sent, sent, k);
  }

  // Two rounds that read the same build their responses from the same job responses.
  lemma SharedInputs(cronjobs: seq<CronJob>, round: Round, cs1: seq<CronjobResponse>, cs2: seq<CronjobResponse>)
    returns (rss: seq<seq<JobResponse>>)
    requires AllAnswer(cronjobs, round, cs1) && AllAnswer(cronjobs, round, cs2)
    ensures BuiltFrom(cronjobs, rss, cs1) && BuiltFrom(cronjobs, rss, cs2)
    ensures forall i :: 0 <= i < |rss| ==> Answers(cronjobs[i], round, rss[i])
  {
    rss := InputsOf(cronjobs, round, cs1);
    var rss2 := InputsOf(cronjobs, round, cs2);
    forall i | 0 <= i < |cronjobs| ensures rss[i] == rss2[i] {
      assert AnswersWith(cronjobs[i], round, rss[i], cs1[i]) && AnswersWith(cronjobs[i], round, rss2[i], cs2[i]);
      AnswersAreDetermined(cronjobs[i], round, rss[i], rss2[i]);
    }
    assert rss == rss2;
  }

  // From a store filled by any run of all writers: the stored list has unique names because the
  // cronjob collector keeps them so and no other writer touches it, so whatever the schedules of
  // GetCronjobs and of its fan-outs, two rounds that read the same agree as RoundsAgree says.
  lemma StoredCronjobsAnswerOnce(
    steps: seq<Store.Step>, cronjobs: seq<CronJob>, round: Round, cs1: seq<CronjobResponse>, cs2: seq<CronjobResponse>,
    sent1: seq<CronjobResponse>, sent2: seq<CronjobResponse>)
    requires forall s | s in steps && s.CronJobStep? :: !s.fault
    requires Store.HoldsCronJobs(Store.RunSteps(map[], steps), Some(cronjobs))
    requires forall i :: 0 <= i < |cronjobs| ==> LowerCase(cronjobs[i].meta.name)
    requires Indexed(round) && AllAnswer(cronjobs, round, cs1) && AllAnswer(cronjobs, round, cs2)
    requires IsCronjobsResponse(cs1, sent1) && IsCronjobsResponse(cs2, sent2)
    ensures |sent1| == |cronjobs| == |sent2|
    ensures Sorted(Strings.StrLeq, Map(LowerName, sent1)) && Map(LowerName, sent1) == Map(LowerName, sent2)
    ensures forall k :: 0 <= k < |sent1| ==> SameContents(sent1[k], sent2[k])
    ensures forall k :: 0 <= k < |sent1| && CreatedApart(round, sent1[k].name) ==> SameJobs(sent1[k], sent2[k])
  {
    Store.CronJobListIsItsFold(map[], steps, None);
    EventList.FoldRefinesMap<CronJobData>(None, Store.CronJobEvents(steps));
    assert EventList.Unique(cronjobs);
    RoundsAgree(cronjobs, round, cs1, cs2, sent1, sent2);
  }

  // Convergence in the shared store: whatever the other collectors and the polling streams do in
  // between, once the cronjob stream is drained the stored cronjobs are the live ones at their
  // current versions, and extras only for the reasons Watch names.
  lemma SharedStoreConverges(
    m: Store.Entries, steps: seq<Store.Step>, w: Watch.World<CronJobData>, acts: seq<Watch.Action<CronJobData>>)
    requires Watch.Init(w) && Watch.AllEnabled(w, acts) && Watch.Run(w, acts).conn == Watch.Open([])
    requires Store.HoldsCronJobs(m, w.stored)
    requires forall s | s in steps && s.CronJobStep? :: !s.fault
    requires Store.CronJobEvents(steps) == Watch.Delivered(w, acts)
    ensures var e := Watch.Run(w, acts);
      && Store.HoldsCronJobs(Store.RunSteps(m, steps), e.stored)
      && EventList.UniqueOption(e.stored)
      && Watch.StoredNames(e.stored) == e.live.Keys + e.stale
      && (forall n :: n in e.live ==> EventList.View(e.stored.value)[n] == e.live[n])
      && e.stale <= Watch.StoredNames(w.stored) + e.offline + e.dropped + e.phantom
  {
    Watch.StoredIsFoldOfDelivered(w, acts);
    Watch.Converges(w, acts);
    Store.CronJobListIsItsFold(m, steps, w.stored);
  }

  // The same for the job list, when no Get of the job collector fails.
  lemma SharedStoreJobsConverge(
    m: Store.Entries, steps: seq<Store.Step>, w: Watch.World<JobData>, acts: seq<Watch.Action<JobData>>)
    requires Watch.Init(w) && Watch.AllEnabled(w, acts) && Watch.Run(w, acts).conn == Watch.Open([])
    requires Store.HoldsJobs(m, w.stored)
    requires forall s | s in steps && s.JobStep? :: !s.fault
    requires Store.JobEvents(steps) == Watch.Delivered(w, acts)
    ensures var e := Watch.Run(w, acts);
      && Store.HoldsJobs(Store.RunSteps(m, steps), e.stored)
      && EventList.UniqueOption(e.stored)
      && Watch.StoredNames(e.stored) == e.live.Keys + e.stale
      && (forall n :: n in e.live ==> EventList.View(e.stored.value)[n] == e.live[n])
      && e.stale <= Watch.StoredNames(w.stored) + e.offline + e.dropped + e.phantom
  {
    Watch.StoredIsFoldOfDelivered(w, acts);
    Watch.Converges(w, acts);
    Store.JobListIsItsFold(m, steps, w.stored);
  }
}
