// The responses of one cronjob and of all cronjobs: fan-out, sorts, and the durations that are
// read off fixed positions of the sorted lists.
module Cronjobs {
  import opened Common
  import opened Strings
  import opened Rfc3339
  import opened Objects
  import opened Responses
  import opened Fanout
  import opened JobStatus
  import EventList

  const RUNNING := "Running"

  predicate IsActive(j: JobResponse) { j.active > 0 }

  predicate IsRunningPod(p: PodResponse) { p.phase == RUNNING }

  // The sort key: parse the creation timestamp, Go's zero time when it does not parse.
  function CreatedAt(j: JobResponse): int { ParseOrZero(j.creationTimestamp).sec }

  function OutputOf(j: JobResponse): Output<JobResponse, PodResponse> {
    Output(j, j.pods, Filter(IsActive, [j]), Filter(IsRunningPod, j.pods))
  }

  function Outputs(resps: seq<JobResponse>): seq<Output<JobResponse, PodResponse>> { Map(OutputOf, resps) }

  // What a goroutine computes before it takes the mutex.
  method WorkerOutput(j: JobResponse) returns (o: Output<JobResponse, PodResponse>)
    ensures o == OutputOf(j)
  {
    var running := j.active > 0;
    var runningPods := [];
    for i := 0 to |j.pods|
      invariant runningPods == Filter(IsRunningPod, j.pods[..i])
    {
      assert j.pods[..i + 1] == j.pods[..i] + [j.pods[i]];
      FilterAppend(IsRunningPod, j.pods[..i], j.pods[i]);
      if j.pods[i].phase == RUNNING {
        runningPods := runningPods + [j.pods[i]];
      }
    }
    assert j.pods[..|j.pods|] == j.pods;
    FilterAppend(IsActive, [], j);
    assert [] + [j] == [j];
    o := Output(j, j.pods, if running then [j] else [], runningPods);
  }

  datatype FanResult = FanResult(
    jobs: seq<JobResponse>, pods: seq<PodResponse>, running: seq<JobResponse>, runningPods: seq<PodResponse>)

  // The results allAndRunningJobsAnPods may return: some schedule, then some sorts.
  ghost predicate IsFanResult(resps: seq<JobResponse>, r: FanResult) {
    exists f :: Reachable(Outputs(resps), f) && Finished(f) && SortsTo(f, r)
  }

  ghost predicate SortsTo(f: Fan<JobResponse, PodResponse>, r: FanResult) {
    && SortedPermutation(f.all, r.jobs, CreatedAt, IntLeq)
    && SortedPermutation(f.picked, r.running, CreatedAt, IntLeq)
    && r.pods == f.parts && r.runningPods == f.pickedParts
  }

  // After wg.Wait(): sort the running jobs, then all jobs.
  method SortCollected(ghost resps: seq<JobResponse>, f: Fan<JobResponse, PodResponse>) returns (r: FanResult)
    requires Reachable(Outputs(resps), f) && Finished(f)
    ensures IsFanResult(resps, r)
    ensures r.pods == f.parts && r.runningPods == f.pickedParts
  {
    IntLeqIsTotalOrder();
    var running := SortFunc(f.picked, CreatedAt, IntLeq);
    var all := SortFunc(f.all, CreatedAt, IntLeq);
    r := FanResult(all, f.parts, running, f.pickedParts);
    assert SortsTo(f, r);
  }

  lemma OutputsPick(resps: seq<JobResponse>)
    ensures PicksBy(Outputs(resps), IsActive, IsRunningPod)
    ensures AllItems(Outputs(resps)) == resps
  {
  }

  // Whatever the schedule: all jobs and the active ones, each once, in creation order.
  lemma FanResultJobs(resps: seq<JobResponse>, r: FanResult)
    requires IsFanResult(resps, r)
    ensures SortedPermutation(resps, r.jobs, CreatedAt, IntLeq)
    ensures SortedPermutation(Filter(IsActive, resps), r.running, CreatedAt, IntLeq)
  {
    var f :| Reachable(Outputs(resps), f) && Finished(f) && SortsTo(f, r);
    OutputsPick(resps);
    FinishedCollectsAll(Outputs(resps), f);
    PickedSlicesAreFilters(Outputs(resps), f, IsActive, IsRunningPod);
    FilterPermutation(IsActive, f.all, resps);
  }

  // The pods are the jobs' pods, job after job in the order the mutex was taken, and the running
  // pods are their Running-phase filter, as sequences.
  lemma FanResultPods(resps: seq<JobResponse>, r: FanResult) returns (order: seq<nat>)
    requires IsFanResult(resps, r)
    ensures IsOrder(order, |resps|)
    ensures r.pods == Gather(Parts(Outputs(resps)), order)
    ensures r.runningPods == Filter(IsRunningPod, r.pods)
  {
    var f :| Reachable(Outputs(resps), f) && Finished(f) && SortsTo(f, r);
    OutputsPick(resps);
    FinishedCollectsAll(Outputs(resps), f);
    PickedSlicesAreFilters(Outputs(resps), f, IsActive, IsRunningPod);
    order := f.order;
  }

  // Any sort of the responses and any order of the critical sections is the result of some
  // schedule.
  lemma FanResultIsReached(resps: seq<JobResponse>, jobs: seq<JobResponse>, running: seq<JobResponse>, order: seq<nat>)
    returns (r: FanResult)
    requires SortedPermutation(resps, jobs, CreatedAt, IntLeq)
    requires SortedPermutation(Filter(IsActive, resps), running, CreatedAt, IntLeq)
    requires IsOrder(order, |resps|)
    ensures IsFanResult(resps, r) && r.jobs == jobs && r.running == running
    ensures r.pods == Gather(Parts(Outputs(resps)), order) && r.runningPods == Filter(IsRunningPod, r.pods)
  {
    var f := OrderIsReached(Outputs(resps), order);
    OutputsPick(resps);
    FinishedCollectsAll(Outputs(resps), f);
    PickedSlicesAreFilters(Outputs(resps), f, IsActive, IsRunningPod);
    FilterPermutation(IsActive, f.all, resps);
    r := FanResult(jobs, f.parts, running, f.pickedParts);
    assert SortsTo(f, r);
  }

  // r holds the responses and the active ones, both in creation order, and the pods gathered in
  // some order of the responses.
  ghost predicate CollectsInSomeOrder(resps: seq<JobResponse>, r: FanResult) {
    && SortedPermutation(resps, r.jobs, CreatedAt, IntLeq)
    && SortedPermutation(Filter(IsActive, resps), r.running, CreatedAt, IntLeq)
    && r.runningPods == Filter(IsRunningPod, r.pods)
    && exists order :: IsOrder(order, |resps|) && r.pods == Gather(Parts(Outputs(resps)), order)
  }

  // These, and no others, are the results of the schedules.
  lemma FanResultIff(resps: seq<JobResponse>, r: FanResult)
    ensures IsFanResult(resps, r) <==> CollectsInSomeOrder(resps, r)
  {
    if IsFanResult(resps, r) {
      FanResultJobs(resps, r);
      var order := FanResultPods(resps, r);
    }
    if CollectsInSomeOrder(resps, r) {
      var order :| IsOrder(order, |resps|) && r.pods == Gather(Parts(Outputs(resps)), order);
      var r' := FanResultIsReached(resps, r.jobs, r.running, order);
      assert r' == r;
    }
  }

  // The invariant itself, at every moment the mutex is free.
  lemma RunningSlicesAreFilters(resps: seq<JobResponse>, f: Fan<JobResponse, PodResponse>)
    requires Reachable(Outputs(resps), f) && f.mutex.None?
    ensures f.picked == Filter(IsActive, f.all) && f.pickedParts == Filter(IsRunningPod, f.parts)
  {
    OutputsPick(resps);
    PickedSlicesAreFilters(Outputs(resps), f, IsActive, IsRunningPod);
  }

  lemma {:induction false} FilterKeepsSorted(s: seq<JobResponse>)
    requires Sorted(IntLeq, Map(CreatedAt, s))
    ensures Sorted(IntLeq, Map(CreatedAt, Filter(IsActive, s)))
  {
    if s != [] {
      var rest := s[1..];
      var keys := Map(CreatedAt, s);
      assert Map(CreatedAt, rest) == keys[1..];
      FilterKeepsSorted(rest);
      var kept := Filter(IsActive, s);
      forall i, j | 0 <= i < j < |kept| ensures IntLeq(Map(CreatedAt, kept)[i], Map(CreatedAt, kept)[j]) {
        if IsActive(s[0]) {
          assert kept == [s[0]] + Filter(IsActive, rest);
          if i == 0 {
            assert kept[j] in rest;
            var q :| 0 <= q < |rest| && rest[q] == kept[j];
            assert IntLeq(keys[0], keys[q + 1]);
          } else {
            assert IntLeq(Map(CreatedAt, Filter(IsActive, rest))[i - 1], Map(CreatedAt, Filter(IsActive, rest))[j - 1]);
          }
        } else {
          assert kept == Filter(IsActive, rest);
        }
      }
    }
  }

  // With distinct creation times nothing depends on the schedule: the job lists are the same,
  // and the running jobs are the active ones of all jobs, in the same order.
  lemma DistinctTimesDetermineJobs(resps: seq<JobResponse>, r1: FanResult, r2: FanResult)
    requires DistinctKeys(resps, CreatedAt)
    requires IsFanResult(resps, r1) && IsFanResult(resps, r2)
    ensures r1.jobs == r2.jobs && r1.running == r2.running
    ensures r1.running == Filter(IsActive, r1.jobs)
  {
    FanResultJobs(resps, r1);
    FanResultJobs(resps, r2);
    IntLeqIsTotalOrder();
    SortedPermutationIsUnique(resps, r1.jobs, r2.jobs, CreatedAt, IntLeq);
    var active := Filter(IsActive, resps);
    FilterKeepsDistinct(resps);
    SortedPermutationIsUnique(active, r1.running, r2.running, CreatedAt, IntLeq);
    FilterPermutation(IsActive, r1.jobs, resps);
    FilterKeepsSorted(r1.jobs);
    SortedPermutationIsUnique(active, r1.running, Filter(IsActive, r1.jobs), CreatedAt, IntLeq);
  }

  lemma {:induction false} FilterKeepsDistinct(s: seq<JobResponse>)
    requires DistinctKeys(s, CreatedAt)
    ensures DistinctKeys(Filter(IsActive, s), CreatedAt)
  {
    if s != [] {
      var rest, kept := s[1..], Filter(IsActive, s[1..]);
      FilterKeepsDistinct(rest);
      forall j | 0 <= j < |kept| ensures CreatedAt(kept[j]) != CreatedAt(s[0]) {
        assert kept[j] in rest;
      }
    }
  }

  // The key is the creation time itself, to the second.
  lemma CreatedAtIsCreation(job: Job, pods: seq<Pod>, now: Time, r: JobResponse)
    requires IsJobResponse(job, pods, now, r) && FourDigitYear(job.meta.creation)
    ensures CreatedAt(r) == job.meta.creation.sec
  {
    ParsePrinted(job.meta.creation);
  }

  // ---------- durations ----------

  function LastPosition(n: nat): nat
    requires n > 0
  {
    if n > 2 then n - 2 else n - 1
  }

  // getLastDuration: the second newest of three or more jobs, else the newest.
  function GetLastDuration(jobs: seq<JobResponse>): int {
    if |jobs| > 0 then jobs[LastPosition(|jobs|)].durationInS else 0
  }

  // getCurrentDuration: the newest running job.
  function GetCurrentDuration(running: seq<JobResponse>): int {
    if |running| > 0 then running[|running| - 1].durationInS else 0
  }

  lemma SomeSort(s: seq<JobResponse>) returns (t: seq<JobResponse>)
    ensures SortedPermutation(s, t, CreatedAt, IntLeq)
  {
    IntLeqIsTotalOrder();
    SortByKeySorts(s, CreatedAt, IntLeq);
    t := SortByKey(s, CreatedAt, IntLeq);
  }

  function NewerThan(x: JobResponse): JobResponse -> bool {
    (j: JobResponse) => CreatedAt(j) > CreatedAt(x)
  }

  lemma NewerAtPosition(s: seq<JobResponse>, r: seq<JobResponse>, p: nat)
    requires DistinctKeys(s, CreatedAt) && SortedPermutation(s, r, CreatedAt, IntLeq) && p < |r|
    ensures Count(NewerThan(r[p]), s) == |r| - p - 1
    ensures r[p] in s
  {
    var newer, keys := NewerThan(r[p]), Map(CreatedAt, r);
    assert r[p] in multiset(s);
    CountPermutation(newer, s, r);
    DistinctAfterSort(s, r);
    forall x | x in r[..p + 1] ensures !newer(x) {
      var i :| 0 <= i < p + 1 && r[i] == x;
      assert i < p ==> IntLeq(keys[i], keys[p]);
    }
    forall x | x in r[p + 1..] ensures newer(x) {
      var i :| p < i < |r| && r[i] == x;
      assert IntLeq(keys[p], keys[i]);
    }
    CountSplit(newer, r, p + 1);
    CountBounds(newer, r[..p + 1]);
    CountBounds(newer, r[p + 1..]);
  }

  lemma DistinctAfterSort(s: seq<JobResponse>, r: seq<JobResponse>)
    requires DistinctKeys(s, CreatedAt) && multiset(s) == multiset(r)
    ensures DistinctKeys(r, CreatedAt)
  {
    forall i, j | 0 <= i < j < |r| ensures CreatedAt(r[i]) != CreatedAt(r[j]) {
      if CreatedAt(r[i]) == CreatedAt(r[j]) {
        OncePerKey(s, CreatedAt(r[i]));
        CountPermutation(CreatedWhen(CreatedAt(r[i])), s, r);
        TwoAreCounted(CreatedWhen(CreatedAt(r[i])), r, i, j);
      }
    }
  }

  function CreatedWhen(k: int): JobResponse -> bool { (j: JobResponse) => CreatedAt(j) == k }

  lemma {:induction false} OncePerKey(s: seq<JobResponse>, k: int)
    requires DistinctKeys(s, CreatedAt)
    ensures Count(CreatedWhen(k), s) <= 1
  {
    if s != [] {
      OncePerKey(s[1..], k);
      if CreatedAt(s[0]) == k {
        CountBounds(CreatedWhen(k), s[1..]);
      }
    }
  }

  lemma TwoAreCounted(p: JobResponse -> bool, s: seq<JobResponse>, i: nat, j: nat)
    requires i < j < |s| && p(s[i]) && p(s[j])
    ensures Count(p, s) >= 2
  {
    CountSplit(p, s, j);
    CountOneMore(p, s, i);
    CountSplit(p, s[..j], i + 1);
    assert s[..j][..i + 1] == s[..i + 1];
    assert s[j..][..0] == [] && s[j..][0] == s[j];
    CountOneMore(p, s[j..], 0);
    CountSplit(p, s[j..], 1);
  }

  // With distinct creation times the last duration is that of the job with exactly one newer
  // job when there are three or more, and with none newer otherwise.
  lemma LastDurationIsSecondNewest(resps: seq<JobResponse>, r: FanResult) returns (j: JobResponse)
    requires resps != [] && DistinctKeys(resps, CreatedAt) && IsFanResult(resps, r)
    ensures j in resps && GetLastDuration(r.jobs) == j.durationInS
    ensures Count(NewerThan(j), resps) == if |resps| >= 3 then 1 else 0
  {
    FanResultJobs(resps, r);
    PositionValues(resps, r.jobs, LastPosition(|resps|));
    NewerAtPosition(resps, r.jobs, LastPosition(|resps|));
    j := r.jobs[LastPosition(|resps|)];
  }

  lemma NewestOfSorted(active: seq<JobResponse>, running: seq<JobResponse>, p: nat)
    requires DistinctKeys(active, CreatedAt) && SortedPermutation(active, running, CreatedAt, IntLeq) && p + 1 == |active|
    ensures |running| == p + 1 && running[p] in active && Count(NewerThan(running[p]), active) == 0
  {
    assert |multiset(running)| == |multiset(active)|;
    NewerAtPosition(active, running, p);
  }

  // The current duration is that of the active job with no newer active job.
  lemma CurrentDurationIsNewest(resps: seq<JobResponse>, active: seq<JobResponse>, p: nat, r: FanResult) returns (j: JobResponse)
    requires active == Filter(IsActive, resps) && p + 1 == |active|
    requires DistinctKeys(resps, CreatedAt) && IsFanResult(resps, r)
    ensures j in active && GetCurrentDuration(r.running) == j.durationInS
    ensures Count(NewerThan(j), active) == 0
  {
    FanResultJobs(resps, r);
    FilterKeepsDistinct(resps);
    NewestOfSorted(active, r.running, p);
    j := r.running[p];
  }

  ghost predicate TiesAgree(s: seq<JobResponse>, p: nat) {
    forall x, y :: Candidate(s, CreatedAt, p, x) && Candidate(s, CreatedAt, p, y) ==> x.durationInS == y.durationInS
  }

  lemma PositionValues(s: seq<JobResponse>, r: seq<JobResponse>, p: nat)
    requires SortedPermutation(s, r, CreatedAt, IntLeq) && p < |s|
    ensures |r| == |s| && Candidate(s, CreatedAt, p, r[p])
  {
    assert |multiset(r)| == |multiset(s)|;
    SortedPicksCandidate(s, r, CreatedAt, p);
  }

  lemma LastTiesAgree(resps: seq<JobResponse>, r1: FanResult, r2: FanResult)
    requires resps != [] && TiesAgree(resps, LastPosition(|resps|))
    requires IsFanResult(resps, r1) && IsFanResult(resps, r2)
    ensures GetLastDuration(r1.jobs) == GetLastDuration(r2.jobs)
  {
    FanResultJobs(resps, r1);
    FanResultJobs(resps, r2);
    PositionValues(resps, r1.jobs, LastPosition(|resps|));
    PositionValues(resps, r2.jobs, LastPosition(|resps|));
  }

  lemma LastTieIsReached(resps: seq<JobResponse>, x: JobResponse) returns (r: FanResult)
    requires resps != [] && Candidate(resps, CreatedAt, LastPosition(|resps|), x)
    ensures IsFanResult(resps, r) && GetLastDuration(r.jobs) == x.durationInS
  {
    var running := SomeSort(Filter(IsActive, resps));
    var jobs := CandidateIsPicked(resps, CreatedAt, LastPosition(|resps|), x);
    PositionValues(resps, jobs, LastPosition(|resps|));
    r := FanResultIsReached(resps, jobs, running, Indices(|resps|));
  }

  // The last duration is the same for every schedule and every sort if and only if all the jobs
  // created in the second that counts have the same duration.
  lemma LastDurationIsDeterminedIff(resps: seq<JobResponse>)
    requires resps != []
    ensures (forall r1, r2 :: IsFanResult(resps, r1) && IsFanResult(resps, r2) ==>
               GetLastDuration(r1.jobs) == GetLastDuration(r2.jobs))
       <==> TiesAgree(resps, LastPosition(|resps|))
  {
    var p := LastPosition(|resps|);
    if TiesAgree(resps, p) {
      forall r1, r2 | IsFanResult(resps, r1) && IsFanResult(resps, r2)
        ensures GetLastDuration(r1.jobs) == GetLastDuration(r2.jobs)
      {
        LastTiesAgree(resps, r1, r2);
      }
    } else {
      var x, y :| Candidate(resps, CreatedAt, p, x) && Candidate(resps, CreatedAt, p, y) && x.durationInS != y.durationInS;
      var r1 := LastTieIsReached(resps, x);
      var r2 := LastTieIsReached(resps, y);
      assert GetLastDuration(r1.jobs) != GetLastDuration(r2.jobs);
    }
  }

  // Two jobs created in one second that ran for one and for two seconds: either duration can be
  // sent.
  lemma LastDurationCanVary(j: JobResponse) returns (r1: FanResult, r2: FanResult)
    ensures var resps := [j.(durationInS := 1), j.(durationInS := 2)];
      && IsFanResult(resps, r1) && GetLastDuration(r1.jobs) == 1
      && IsFanResult(resps, r2) && GetLastDuration(r2.jobs) == 2
  {
    var a, b := j.(durationInS := 1), j.(durationInS := 2);
    var running := SomeSort(Filter(IsActive, [a, b]));
    TwoTiedSortBothWays(a, b, CreatedAt);
    r1 := FanResultIsReached([a, b], [b, a], running, Indices(2));
    r2 := FanResultIsReached([a, b], [a, b], running, Indices(2));
  }

  lemma NewestIsCandidate(active: seq<JobResponse>, running: seq<JobResponse>, p: nat)
    requires SortedPermutation(active, running, CreatedAt, IntLeq) && p + 1 == |active|
    ensures |running| == p + 1 && Candidate(active, CreatedAt, p, running[p])
    ensures GetCurrentDuration(running) == running[p].durationInS
  {
    PositionValues(active, running, p);
  }

  lemma CurrentTiesAgree(resps: seq<JobResponse>, active: seq<JobResponse>, p: nat, r1: FanResult, r2: FanResult)
    requires active == Filter(IsActive, resps) && p + 1 == |active|
    requires TiesAgree(active, p) && IsFanResult(resps, r1) && IsFanResult(resps, r2)
    ensures GetCurrentDuration(r1.running) == GetCurrentDuration(r2.running)
  {
    FanResultJobs(resps, r1);
    FanResultJobs(resps, r2);
    NewestIsCandidate(active, r1.running, p);
    NewestIsCandidate(active, r2.running, p);
  }

  lemma CurrentTieIsReached(resps: seq<JobResponse>, active: seq<JobResponse>, p: nat, x: JobResponse) returns (r: FanResult)
    requires active == Filter(IsActive, resps) && p + 1 == |active|
    requires Candidate(active, CreatedAt, p, x)
    ensures IsFanResult(resps, r) && GetCurrentDuration(r.running) == x.durationInS
  {
    var jobs := SomeSort(resps);
    var running := CandidateIsPicked(active, CreatedAt, p, x);
    NewestIsCandidate(active, running, p);
    r := FanResultIsReached(resps, jobs, running, Indices(|resps|));
  }

  // Likewise the current duration, over the active jobs created in the newest second.
  lemma CurrentDurationIsDeterminedIff(resps: seq<JobResponse>, active: seq<JobResponse>)
    requires active == Filter(IsActive, resps) && active != []
    ensures (forall r1, r2 :: IsFanResult(resps, r1) && IsFanResult(resps, r2) ==>
               GetCurrentDuration(r1.running) == GetCurrentDuration(r2.running))
       <==> TiesAgree(active, |active| - 1)
  {
    var p := |active| - 1;
    if TiesAgree(active, p) {
      forall r1, r2 | IsFanResult(resps, r1) && IsFanResult(resps, r2)
        ensures GetCurrentDuration(r1.running) == GetCurrentDuration(r2.running)
      {
        CurrentTiesAgree(resps, active, p, r1, r2);
      }
    } else {
      var x, y :| Candidate(active, CreatedAt, p, x) && Candidate(active, CreatedAt, p, y) && x.durationInS != y.durationInS;
      var r1 := CurrentTieIsReached(resps, active, p, x);
      var r2 := CurrentTieIsReached(resps, active, p, y);
      assert GetCurrentDuration(r1.running) != GetCurrentDuration(r2.running);
    }
  }

  // ---------- one cronjob ----------

  ghost predicate IsCronjobResponse(cj: CronJob, resps: seq<JobResponse>, c: CronjobResponse) {
    exists r :: IsFanResult(resps, r) && Assembles(cj, r, c)
  }

  ghost predicate Assembles(cj: CronJob, r: FanResult, c: CronjobResponse) {
    && c.name == cj.meta.name && c.namespace == cj.meta.namespace
    && c.active == (cj.payload.active > 0)
    && c.jobs == r.jobs && c.runningJobs == r.running
    && c.jobsPods == r.pods && c.runningJobsPods == r.runningPods
    && c.lastDuration == GetLastDuration(r.jobs) && c.currentDuration == GetCurrentDuration(r.running)
    && (c.failed <==> exists j :: j in r.jobs && j.failed)
  }

  // cronJobResponse, once allAndRunningJobsAnPods has returned.
  method BuildCronjobResponse(cj: CronJob, r: FanResult) returns (c: CronjobResponse)
    ensures Assembles(cj, r, c)
  {
    var failed := false;
    for i := 0 to |r.jobs|
      invariant failed <==> exists k :: 0 <= k < i && r.jobs[k].failed
    {
      if r.jobs[i].failed {
        failed := true;
        break;
      }
    }
    c := CronjobResponse(cj.meta.name, cj.meta.namespace, cj.payload.active > 0, failed,
                         GetLastDuration(r.jobs), GetCurrentDuration(r.running),
                         r.jobs, r.running, r.pods, r.runningPods);
  }

  // The parts of a response that depend on no schedule.
  ghost predicate SameContents(c: CronjobResponse, d: CronjobResponse) {
    && c.name == d.name && c.namespace == d.namespace && c.active == d.active && c.failed == d.failed
    && multiset(c.jobs) == multiset(d.jobs) && multiset(c.runningJobs) == multiset(d.runningJobs)
    && multiset(c.jobsPods) == multiset(d.jobsPods)
    && multiset(c.runningJobsPods) == multiset(d.runningJobsPods)
  }

  predicate SameJobs(c: CronjobResponse, d: CronjobResponse) {
    && c.jobs == d.jobs && c.runningJobs == d.runningJobs
    && c.lastDuration == d.lastDuration && c.currentDuration == d.currentDuration
  }

  lemma FansAgree(resps: seq<JobResponse>, r1: FanResult, r2: FanResult)
    requires IsFanResult(resps, r1) && IsFanResult(resps, r2)
    ensures multiset(r1.jobs) == multiset(r2.jobs) && multiset(r1.running) == multiset(r2.running)
    ensures multiset(r1.pods) == multiset(r2.pods) && multiset(r1.runningPods) == multiset(r2.runningPods)
  {
    FanResultJobs(resps, r1);
    FanResultJobs(resps, r2);
    var order1 := FanResultPods(resps, r1);
    var order2 := FanResultPods(resps, r2);
    GatherPermutation(Parts(Outputs(resps)), order1, order2);
    FilterPermutation(IsRunningPod, r1.pods, r2.pods);
  }

  // Two runs of the fan-out on the same job responses: the same contents for all schedules, and
  // with distinct creation times the same job lists and durations.
  lemma ResponsesAgree(cj: CronJob, resps: seq<JobResponse>, c1: CronjobResponse, c2: CronjobResponse)
    requires IsCronjobResponse(cj, resps, c1) && IsCronjobResponse(cj, resps, c2)
    ensures SameContents(c1, c2)
    ensures DistinctKeys(resps, CreatedAt) ==> SameJobs(c1, c2)
  {
    var r1 :| IsFanResult(resps, r1) && Assembles(cj, r1, c1);
    var r2 :| IsFanResult(resps, r2) && Assembles(cj, r2, c2);
    FansAgree(resps, r1, r2);
    assert forall j :: j in r1.jobs <==> j in multiset(r1.jobs);
    assert forall j :: j in r2.jobs <==> j in multiset(r2.jobs);
    if DistinctKeys(resps, CreatedAt) {
      DistinctTimesDetermineJobs(resps, r1, r2);
    }
  }

  // ---------- what a response holds ----------

  lemma FilterKeepsCount(s: seq<JobResponse>, p: JobResponse -> bool, r: JobResponse)
    ensures multiset(Filter(p, s))[r] == if p(r) then multiset(s)[r] else 0
  {
    if s != [] {
      FilterKeepsCount(s[1..], p, r);
      assert s == [s[0]] + s[1..];
    }
  }

  // Whatever the schedule, the jobs are all of them, the running jobs the ones with active pods,
  // each as often as it is listed; without any of them the durations are zero.
  lemma ResponseHoldsJobs(cj: CronJob, resps: seq<JobResponse>, c: CronjobResponse)
    requires IsCronjobResponse(cj, resps, c)
    ensures c.name == cj.meta.name && c.namespace == cj.meta.namespace && (c.active <==> cj.payload.active > 0)
    ensures multiset(c.jobs) == multiset(resps)
    ensures forall r :: multiset(c.runningJobs)[r] == if r.active > 0 then multiset(resps)[r] else 0
    ensures resps == [] ==> c.lastDuration == 0
    ensures (forall r | r in resps :: r.active <= 0) ==> c.currentDuration == 0
  {
    var f :| IsFanResult(resps, f) && Assembles(cj, f, c);
    FanResultJobs(resps, f);
    forall r ensures multiset(Filter(IsActive, resps))[r] == if r.active > 0 then multiset(resps)[r] else 0 {
      FilterKeepsCount(resps, IsActive, r);
    }
    assert |multiset(c.jobs)| == |multiset(resps)|;
    if forall r | r in resps :: r.active <= 0 {
      FilterNone(resps, IsActive);
      assert |multiset(c.runningJobs)| == 0;
    }
  }

  // The pods are those of the jobs, and the running pods those of them, in the same order, whose
  // phase is Running.
  lemma ResponseHoldsPods(cj: CronJob, resps: seq<JobResponse>, c: CronjobResponse)
    requires IsCronjobResponse(cj, resps, c)
    ensures forall p :: p in c.jobsPods <==> exists r :: r in resps && p in r.pods
    ensures c.runningJobsPods == Filter((p: PodResponse) => p.phase == "Running", c.jobsPods)
  {
    var f :| IsFanResult(resps, f) && Assembles(cj, f, c);
    var order := FanResultPods(resps, f);
    PermutedIndices(order, |resps|);
    forall p ensures p in c.jobsPods <==> exists r :: r in resps && p in r.pods {
      GatheredPods(resps, order, p);
    }
    FilterSame(IsRunningPod, (p: PodResponse) => p.phase == "Running", c.jobsPods);
  }

  lemma GatheredPods(resps: seq<JobResponse>, order: seq<nat>, p: PodResponse)
    requires forall w: nat :: w in order <==> w < |resps|
    ensures p in Gather(Parts(Outputs(resps)), order) <==> exists r :: r in resps && p in r.pods
  {
    GatherMembers(Parts(Outputs(resps)), order, p);
    if r :| r in resps && p in r.pods {
      var w: nat :| w < |resps| && resps[w] == r;
      assert w in order;
      var i :| 0 <= i < |order| && order[i] == w;
      assert p in Parts(Outputs(resps))(order[i]);
    }
    if i :| 0 <= i < |order| && p in Parts(Outputs(resps))(order[i]) {
      assert order[i] in order;
      assert p in resps[order[i]].pods;
    }
  }

  // ---------- when one response is the only one ----------

  // Responses that the sort cannot tell apart are equal.
  predicate TiesAreEqual(s: seq<JobResponse>) {
    forall i, j :: 0 <= i < j < |s| && CreatedAt(s[i]) == CreatedAt(s[j]) ==> s[i] == s[j]
  }

  lemma EqualTiesSortAlike(s: seq<JobResponse>, r1: seq<JobResponse>, r2: seq<JobResponse>)
    requires forall x, y :: x in s && y in s && CreatedAt(x) == CreatedAt(y) ==> x == y
    requires SortedPermutation(s, r1, CreatedAt, IntLeq) && SortedPermutation(s, r2, CreatedAt, IntLeq)
    ensures r1 == r2
  {
    IntLeqIsTotalOrder();
    SortedKeysAgree(s, r1, r2, CreatedAt, IntLeq);
    assert |r1| == |Map(CreatedAt, r1)| == |Map(CreatedAt, r2)| == |r2|;
    forall i | 0 <= i < |r1| ensures r1[i] == r2[i] {
      assert r1[i] in multiset(s) && r2[i] in multiset(s);
      assert Map(CreatedAt, r1)[i] == Map(CreatedAt, r2)[i];
    }
  }

  lemma UnequalTiesSortApart(s: seq<JobResponse>, x: JobResponse, y: JobResponse)
    returns (r1: seq<JobResponse>, r2: seq<JobResponse>)
    requires x in s && y in s && x != y && CreatedAt(x) == CreatedAt(y)
    ensures SortedPermutation(s, r1, CreatedAt, IntLeq) && SortedPermutation(s, r2, CreatedAt, IntLeq)
    ensures r1 != r2
  {
    r1 := SomeSort(s);
    assert x in multiset(r1);
    var p :| 0 <= p < |r1| && r1[p] == x;
    assert |multiset(r1)| == |multiset(s)|;
    SortedPicksCandidate(s, r1, CreatedAt, p);
    r2 := CandidateIsPicked(s, CreatedAt, p, y);
  }

  predicate Determined(resps: seq<JobResponse>) {
    && TiesAreEqual(resps)
    && forall i, j :: 0 <= i < j < |resps| ==> resps[i].pods + resps[j].pods == resps[j].pods + resps[i].pods
  }

  lemma PartsAreThePods(resps: seq<JobResponse>)
    ensures Commute(Parts(Outputs(resps)), |resps|) <==>
      forall i, j :: 0 <= i < j < |resps| ==> resps[i].pods + resps[j].pods == resps[j].pods + resps[i].pods
  {
    forall i: nat | i < |resps| ensures Parts(Outputs(resps))(i) == resps[i].pods {}
  }

  lemma DeterminedFansAgree(resps: seq<JobResponse>, r1: FanResult, r2: FanResult)
    requires Determined(resps) && IsFanResult(resps, r1) && IsFanResult(resps, r2)
    ensures r1 == r2
  {
    FanResultJobs(resps, r1);
    FanResultJobs(resps, r2);
    EqualTies(resps);
    EqualTiesSortAlike(resps, r1.jobs, r2.jobs);
    EqualTiesSortAlike(Filter(IsActive, resps), r1.running, r2.running);
    CommutingPodsAgree(resps, r1, r2);
  }

  lemma EqualTies(s: seq<JobResponse>)
    requires TiesAreEqual(s)
    ensures forall x, y :: x in s && y in s && CreatedAt(x) == CreatedAt(y) ==> x == y
  {
    forall x, y | x in s && y in s && CreatedAt(x) == CreatedAt(y) ensures x == y {
      var i :| 0 <= i < |s| && s[i] == x;
      var j :| 0 <= j < |s| && s[j] == y;
    }
  }

  lemma CommutingPodsAgree(resps: seq<JobResponse>, r1: FanResult, r2: FanResult)
    requires Determined(resps) && IsFanResult(resps, r1) && IsFanResult(resps, r2)
    ensures r1.pods == r2.pods && r1.runningPods == r2.runningPods
  {
    var order1 := FanResultPods(resps, r1);
    var order2 := FanResultPods(resps, r2);
    PartsAreThePods(resps);
    GathersAgreeIff(Parts(Outputs(resps)), |resps|);
  }

  // Two schedules of an undetermined fan-out that differ in the jobs or in the pods.
  lemma UndeterminedFansDiffer(resps: seq<JobResponse>) returns (r1: FanResult, r2: FanResult)
    requires !Determined(resps)
    ensures IsFanResult(resps, r1) && IsFanResult(resps, r2)
    ensures r1.jobs != r2.jobs || r1.pods != r2.pods
  {
    var running := SomeSort(Filter(IsActive, resps));
    if !TiesAreEqual(resps) {
      var i, j :| 0 <= i < j < |resps| && CreatedAt(resps[i]) == CreatedAt(resps[j]) && resps[i] != resps[j];
      var jobs1, jobs2 := UnequalTiesSortApart(resps, resps[i], resps[j]);
      r1 := FanResultIsReached(resps, jobs1, running, Indices(|resps|));
      r2 := FanResultIsReached(resps, jobs2, running, Indices(|resps|));
    } else {
      var jobs := SomeSort(resps);
      PartsAreThePods(resps);
      GathersAgreeIff(Parts(Outputs(resps)), |resps|);
      var a, b :| IsOrder(a, |resps|) && IsOrder(b, |resps|)
               && Gather(Parts(Outputs(resps)), a) != Gather(Parts(Outputs(resps)), b);
      r1 := FanResultIsReached(resps, jobs, running, a);
      r2 := FanResultIsReached(resps, jobs, running, b);
    }
  }

  function Assembled(cj: CronJob, r: FanResult): CronjobResponse {
    CronjobResponse(cj.meta.name, cj.meta.namespace, cj.payload.active > 0, exists j :: j in r.jobs && j.failed,
                    GetLastDuration(r.jobs), GetCurrentDuration(r.running),
                    r.jobs, r.running, r.pods, r.runningPods)
  }

  ghost predicate HasOneResponse(cj: CronJob, resps: seq<JobResponse>) {
    forall c1, c2 :: IsCronjobResponse(cj, resps, c1) && IsCronjobResponse(cj, resps, c2) ==> c1 == c2
  }

  lemma DeterminedHasOneResponse(cj: CronJob, resps: seq<JobResponse>, c1: CronjobResponse, c2: CronjobResponse)
    requires Determined(resps) && IsCronjobResponse(cj, resps, c1) && IsCronjobResponse(cj, resps, c2)
    ensures c1 == c2
  {
    var r1 :| IsFanResult(resps, r1) && Assembles(cj, r1, c1);
    var r2 :| IsFanResult(resps, r2) && Assembles(cj, r2, c2);
    DeterminedFansAgree(resps, r1, r2);
  }

  lemma UndeterminedHasTwo(cj: CronJob, resps: seq<JobResponse>) returns (c1: CronjobResponse, c2: CronjobResponse)
    requires !Determined(resps)
    ensures IsCronjobResponse(cj, resps, c1) && IsCronjobResponse(cj, resps, c2) && c1 != c2
  {
    var r1, r2 := UndeterminedFansDiffer(resps);
    c1, c2 := Assembled(cj, r1), Assembled(cj, r2);
    assert Assembles(cj, r1, c1) && Assembles(cj, r2, c2);
  }

  // For given job responses, cronJobResponse has one result for all schedules and sorts if and
  // only if jobs created in one second are equal and the pod lists of any two jobs commute.  Two
  // jobs with different pods are enough to make the pod order vary.
  lemma ResponseIsDeterminedIff(cj: CronJob, resps: seq<JobResponse>)
    ensures HasOneResponse(cj, resps) <==> Determined(resps)
  {
    if Determined(resps) {
      forall c1, c2 | IsCronjobResponse(cj, resps, c1) && IsCronjobResponse(cj, resps, c2) ensures c1 == c2 {
        DeterminedHasOneResponse(cj, resps, c1, c2);
      }
    } else {
      var c1, c2 := UndeterminedHasTwo(cj, resps);
    }
  }

  lemma ResponseInOrder(cj: CronJob, resps: seq<JobResponse>, order: seq<nat>) returns (c: CronjobResponse)
    requires IsOrder(order, |resps|)
    ensures IsCronjobResponse(cj, resps, c) && c.jobsPods == Gather(Parts(Outputs(resps)), order)
  {
    var jobs := SomeSort(resps);
    var running := SomeSort(Filter(IsActive, resps));
    var r := FanResultIsReached(resps, jobs, running, order);
    c := Assembled(cj, r);
    assert Assembles(cj, r, c);
  }

  lemma PartsOfTwo(a: JobResponse, b: JobResponse)
    ensures Parts(Outputs([a, b]))(0) == a.pods && Parts(Outputs([a, b]))(1) == b.pods
  {
  }

  // Two jobs whose pods do not commute: the sent pods follow the order of the goroutines, however
  // far apart the jobs were created.
  lemma PodOrderVaries(cj: CronJob, a: JobResponse, b: JobResponse) returns (c1: CronjobResponse, c2: CronjobResponse)
    requires a.pods + b.pods != b.pods + a.pods
    ensures IsCronjobResponse(cj, [a, b], c1) && IsCronjobResponse(cj, [a, b], c2)
    ensures c1.jobsPods == a.pods + b.pods && c2.jobsPods == b.pods + a.pods
    ensures c1 != c2
  {
    OrdersOfTwo();
    PartsOfTwo(a, b);
    TwoGathered(Parts(Outputs([a, b])), 0, 1);
    TwoGathered(Parts(Outputs([a, b])), 1, 0);
    c1 := ResponseInOrder(cj, [a, b], [0, 1]);
    c2 := ResponseInOrder(cj, [a, b], [1, 0]);
  }

  // ---------- all cronjobs ----------

  function LowerChar(c: char): char {
    if 'A' <= c <= 'Z' then ((c as int) + 32) as char else c
  }

  function ToLower(s: string): string { Map(LowerChar, s) }

  // Letters keep their place in the alphabet and everything else is unchanged.
  lemma LowerLetters(s: string, i: nat)
    requires i < |s|
    ensures |ToLower(s)| == |s|
    ensures 'A' <= s[i] <= 'Z' ==> ToLower(s)[i] as int - 'a' as int == s[i] as int - 'A' as int
    ensures !('A' <= s[i] <= 'Z') ==> ToLower(s)[i] == s[i]
  {
  }

  predicate LowerCase(s: string) { forall i :: 0 <= i < |s| ==> !('A' <= s[i] <= 'Z') }

  lemma LowerCaseIsUnchanged(s: string)
    requires LowerCase(s)
    ensures ToLower(s) == s
  {
  }

  function LowerName(c: CronjobResponse): string { ToLower(c.name) }

  function PlainOutput(c: CronjobResponse): Output<CronjobResponse, ()> { Output(c, [], [], []) }

  // What GetCronjobs may send when the goroutines build the responses cs.
  ghost predicate IsCronjobsResponse(cs: seq<CronjobResponse>, sent: seq<CronjobResponse>) {
    exists f :: Reachable(Map(PlainOutput, cs), f) && Finished(f) && SortedPermutation(f.all, sent, LowerName, StrLeq)
  }

  lemma CronjobsResponseFacts(cs: seq<CronjobResponse>, sent: seq<CronjobResponse>)
    requires IsCronjobsResponse(cs, sent)
    ensures SortedPermutation(cs, sent, LowerName, StrLeq)
  {
    var f :| Reachable(Map(PlainOutput, cs), f) && Finished(f) && SortedPermutation(f.all, sent, LowerName, StrLeq);
    FinishedCollectsAll(Map(PlainOutput, cs), f);
    assert AllItems(Map(PlainOutput, cs)) == cs;
  }

  ghost predicate NamedLike(cronjobs: seq<CronJob>, cs: seq<CronjobResponse>) {
    |cs| == |cronjobs| && forall i :: 0 <= i < |cs| ==> cs[i].name == cronjobs[i].meta.name
  }

  // The stored names are unique and Kubernetes names are lower case.
  ghost predicate Distinguishable(cronjobs: seq<CronJob>) {
    EventList.Unique(cronjobs) && forall i :: 0 <= i < |cronjobs| ==> LowerCase(cronjobs[i].meta.name)
  }

  lemma LowerNames(cronjobs: seq<CronJob>, cs: seq<CronjobResponse>)
    requires Distinguishable(cronjobs) && NamedLike(cronjobs, cs)
    ensures forall i :: 0 <= i < |cs| ==> LowerName(cs[i]) == cronjobs[i].meta.name
    ensures DistinctKeys(cs, LowerName)
  {
    forall i | 0 <= i < |cs| ensures LowerName(cs[i]) == cronjobs[i].meta.name {
      LowerCaseIsUnchanged(cs[i].name);
    }
  }

  // One completion order or another, the same finished responses are sent in the same order.
  lemma SentOnce(cronjobs: seq<CronJob>, cs: seq<CronjobResponse>, sent1: seq<CronjobResponse>, sent2: seq<CronjobResponse>)
    requires Distinguishable(cronjobs) && NamedLike(cronjobs, cs)
    requires IsCronjobsResponse(cs, sent1) && IsCronjobsResponse(cs, sent2)
    ensures sent1 == sent2
  {
    LowerNames(cronjobs, cs);
    CronjobsResponseFacts(cs, sent1);
    CronjobsResponseFacts(cs, sent2);
    StrLeqIsTotalOrder();
    SortedPermutationIsUnique(cs, sent1, sent2, LowerName, StrLeq);
  }

  // Two rounds send the names in one order.
  lemma SentNamesAgree(
    cs1: seq<CronjobResponse>, cs2: seq<CronjobResponse>, sent1: seq<CronjobResponse>, sent2: seq<CronjobResponse>)
    requires Map(LowerName, cs1) == Map(LowerName, cs2)
    requires IsCronjobsResponse(cs1, sent1) && IsCronjobsResponse(cs2, sent2)
    ensures Map(LowerName, sent1) == Map(LowerName, sent2)
  {
    CronjobsResponseFacts(cs1, sent1);
    CronjobsResponseFacts(cs2, sent2);
    MapPermutation(LowerName, sent1, cs1);
    MapPermutation(LowerName, sent2, cs2);
    StrLeqIsTotalOrder();
    SortedIsUnique(StrLeq, Map(LowerName, sent1), Map(LowerName, sent2));
  }

  // At every position two rounds send the responses of one cronjob.
  lemma SentPosition(
    cronjobs: seq<CronJob>, cs1: seq<CronjobResponse>, cs2: seq<CronjobResponse>,
    sent1: seq<CronjobResponse>, sent2: seq<CronjobResponse>, k: nat) returns (i: nat)
    requires Distinguishable(cronjobs) && NamedLike(cronjobs, cs1) && NamedLike(cronjobs, cs2)
    requires IsCronjobsResponse(cs1, sent1) && IsCronjobsResponse(cs2, sent2) && k < |sent1| == |sent2|
    ensures i < |cronjobs| && sent1[k] == cs1[i] && sent2[k] == cs2[i]
  {
    LowerNames(cronjobs, cs1);
    LowerNames(cronjobs, cs2);
    assert Map(LowerName, cs1) == Map(LowerName, cs2);
    SentNamesAgree(cs1, cs2, sent1, sent2);
    CronjobsResponseFacts(cs1, sent1);
    CronjobsResponseFacts(cs2, sent2);
    assert sent1[k] in multiset(cs1) && sent2[k] in multiset(cs2);
    i :| 0 <= i < |cs1| && cs1[i] == sent1[k];
    var j :| 0 <= j < |cs2| && cs2[j] == sent2[k];
    assert Map(LowerName, sent1)[k] == Map(LowerName, sent2)[k];
    assert cronjobs[i].meta.name == cronjobs[j].meta.name;
    assert i == j;
  }

  lemma SentLength(cs: seq<CronjobResponse>, sent: seq<CronjobResponse>)
    requires IsCronjobsResponse(cs, sent)
    ensures |sent| == |cs|
  {
    CronjobsResponseFacts(cs, sent);
    assert |multiset(sent)| == |multiset(cs)|;
  }

  // Each goroutine ran its own fan-out over the responses of its cronjob's jobs.
  ghost predicate BuiltFrom(cronjobs: seq<CronJob>, rss: seq<seq<JobResponse>>, cs: seq<CronjobResponse>) {
    |cronjobs| == |rss| == |cs| && forall i :: 0 <= i < |cs| ==> IsCronjobResponse(cronjobs[i], rss[i], cs[i])
  }

  // What GetCronjobs may send, over all schedules of the goroutines of all fan-outs and all
  // sorts, when the jobs of each cronjob have these responses.
  ghost predicate MaySend(cronjobs: seq<CronJob>, rss: seq<seq<JobResponse>>, sent: seq<CronjobResponse>) {
    exists cs :: BuiltFrom(cronjobs, rss, cs) && IsCronjobsResponse(cs, sent)
  }

  // The jobs of the cronjob of this name have distinct creation times.
  ghost predicate HasDistinctTimes(cronjobs: seq<CronJob>, rss: seq<seq<JobResponse>>, name: string)
    requires |rss| == |cronjobs|
  {
    exists i :: 0 <= i < |cronjobs| && cronjobs[i].meta.name == name && DistinctKeys(rss[i], CreatedAt)
  }

  lemma SentResponsesAgree(
    cronjobs: seq<CronJob>, rss: seq<seq<JobResponse>>, cs1: seq<CronjobResponse>, cs2: seq<CronjobResponse>,
    sent1: seq<CronjobResponse>, sent2: seq<CronjobResponse>, k: nat)
    requires Distinguishable(cronjobs) && BuiltFrom(cronjobs, rss, cs1) && BuiltFrom(cronjobs, rss, cs2)
    requires IsCronjobsResponse(cs1, sent1) && IsCronjobsResponse(cs2, sent2) && k < |sent1| == |sent2|
    ensures SameContents(sent1[k], sent2[k])
    ensures HasDistinctTimes(cronjobs, rss, sent1[k].name) ==> SameJobs(sent1[k], sent2[k])
  {
    var i := SentPosition(cronjobs, cs1, cs2, sent1, sent2, k);
    ResponsesAgree(cronjobs[i], rss[i], cs1[i], cs2[i]);
    assert cs1[i].name == cronjobs[i].meta.name;
  }

  lemma BuiltNames(cronjobs: seq<CronJob>, rss: seq<seq<JobResponse>>, cs: seq<CronjobResponse>)
    requires BuiltFrom(cronjobs, rss, cs)
    ensures NamedLike(cronjobs, cs)
  {
  }

  // Two rounds over the same job responses, whatever the schedules: as many responses, name by
  // name in the order of the names, with the same contents; and where the creation times of a
  // cronjob's jobs are distinct, with the same job lists and durations.
  lemma CronjobsAreScheduleIndependent(
    cronjobs: seq<CronJob>, rss: seq<seq<JobResponse>>, sent1: seq<CronjobResponse>, sent2: seq<CronjobResponse>)
    requires Distinguishable(cronjobs) && |rss| == |cronjobs|
    requires MaySend(cronjobs, rss, sent1) && MaySend(cronjobs, rss, sent2)
    ensures |sent1| == |cronjobs| == |sent2|
    ensures Sorted(StrLeq, Map(LowerName, sent1)) && Map(LowerName, sent1) == Map(LowerName, sent2)
    ensures forall k :: 0 <= k < |sent1| ==> SameContents(sent1[k], sent2[k])
    ensures forall k :: 0 <= k < |sent1| && HasDistinctTimes(cronjobs, rss, sent1[k].name) ==> SameJobs(sent1[k], sent2[k])
  {
    var cs1 :| BuiltFrom(cronjobs, rss, cs1) && IsCronjobsResponse(cs1, sent1);
    var cs2 :| BuiltFrom(cronjobs, rss, cs2) && IsCronjobsResponse(cs2, sent2);
    SentLength(cs1, sent1);
    SentLength(cs2, sent2);
    SentInNameOrder(cronjobs, rss, cs1, cs2, sent1, sent2);
    forall k | 0 <= k < |sent1|
      ensures SameContents(sent1[k], sent2[k])
      ensures HasDistinctTimes(cronjobs, rss, sent1[k].name) ==> SameJobs(sent1[k], sent2[k])
    {
      SentResponsesAgree(cronjobs, rss, cs1, cs2, sent1, sent2, k);
    }
  }

  lemma SentInNameOrder(
    cronjobs: seq<CronJob>, rss: seq<seq<JobResponse>>, cs1: seq<CronjobResponse>, cs2: seq<CronjobResponse>,
    sent1: seq<CronjobResponse>, sent2: seq<CronjobResponse>)
    requires Distinguishable(cronjobs) && BuiltFrom(cronjobs, rss, cs1) && BuiltFrom(cronjobs, rss, cs2)
    requires IsCronjobsResponse(cs1, sent1) && IsCronjobsResponse(cs2, sent2)
    ensures Sorted(StrLeq, Map(LowerName, sent1)) && Map(LowerName, sent1) == Map(LowerName, sent2)
  {
    BuiltNames(cronjobs, rss, cs1);
    BuiltNames(cronjobs, rss, cs2);
    LowerNames(cronjobs, cs1);
    LowerNames(cronjobs, cs2);
    assert Map(LowerName, cs1) == Map(LowerName, cs2);
    CronjobsResponseFacts(cs1, sent1);
    SentNamesAgree(cs1, cs2, sent1, sent2);
  }

  lemma SomeBuilt(cronjobs: seq<CronJob>, rss: seq<seq<JobResponse>>) returns (cs: seq<CronjobResponse>)
    requires |rss| == |cronjobs|
    ensures BuiltFrom(cronjobs, rss, cs)
  {
    cs := [];
    for i := 0 to |cronjobs|
      invariant |cs| == i && forall k :: 0 <= k < i ==> IsCronjobResponse(cronjobs[k], rss[k], cs[k])
    {
      var c := ResponseInOrder(cronjobs[i], rss[i], Indices(|rss[i]|));
      cs := cs + [c];
    }
  }

  lemma SomeSent(cs: seq<CronjobResponse>) returns (sent: seq<CronjobResponse>)
    ensures IsCronjobsResponse(cs, sent)
  {
    var f := OrderIsReached(Map(PlainOutput, cs), Indices(|cs|));
    StrLeqIsTotalOrder();
    SortByKeySorts(f.all, LowerName, StrLeq);
    sent := SortByKey(f.all, LowerName, StrLeq);
  }

  ghost predicate SendsOneSequence(cronjobs: seq<CronJob>, rss: seq<seq<JobResponse>>) {
    forall sent1, sent2 :: MaySend(cronjobs, rss, sent1) && MaySend(cronjobs, rss, sent2) ==> sent1 == sent2
  }

  lemma DeterminedSendsOnce(
    cronjobs: seq<CronJob>, rss: seq<seq<JobResponse>>, sent1: seq<CronjobResponse>, sent2: seq<CronjobResponse>)
    requires Distinguishable(cronjobs) && |rss| == |cronjobs| && forall i :: 0 <= i < |rss| ==> Determined(rss[i])
    requires MaySend(cronjobs, rss, sent1) && MaySend(cronjobs, rss, sent2)
    ensures sent1 == sent2
  {
    var cs1 :| BuiltFrom(cronjobs, rss, cs1) && IsCronjobsResponse(cs1, sent1);
    var cs2 :| BuiltFrom(cronjobs, rss, cs2) && IsCronjobsResponse(cs2, sent2);
    forall i | 0 <= i < |cs1| ensures cs1[i] == cs2[i] {
      DeterminedHasOneResponse(cronjobs[i], rss[i], cs1[i], cs2[i]);
    }
    assert cs1 == cs2;
    SentOnce(cronjobs, cs1, sent1, sent2);
  }

  lemma OneUpdateDiffers<T>(s: seq<T>, i: nat, x: T, y: T)
    requires i < |s| && x != y
    ensures multiset(s[i := x]) != multiset(s[i := y])
  {
    assert multiset(s[i := x])[x] == multiset(s[i := y])[x] + 1;
  }

  lemma UndeterminedSendsTwo(cronjobs: seq<CronJob>, rss: seq<seq<JobResponse>>, i: nat)
    returns (sent1: seq<CronjobResponse>, sent2: seq<CronjobResponse>)
    requires |rss| == |cronjobs| && i < |rss| && !Determined(rss[i])
    ensures MaySend(cronjobs, rss, sent1) && MaySend(cronjobs, rss, sent2) && sent1 != sent2
  {
    var cs := SomeBuilt(cronjobs, rss);
    var c1, c2 := UndeterminedHasTwo(cronjobs[i], rss[i]);
    assert BuiltFrom(cronjobs, rss, cs[i := c1]) && BuiltFrom(cronjobs, rss, cs[i := c2]);
    sent1 := SomeSent(cs[i := c1]);
    sent2 := SomeSent(cs[i := c2]);
    CronjobsResponseFacts(cs[i := c1], sent1);
    CronjobsResponseFacts(cs[i := c2], sent2);
    OneUpdateDiffers(cs, i, c1, c2);
  }

  // GetCronjobs sends one sequence for all schedules if and only if the response of every
  // cronjob is determined.
  lemma CronjobsAreDeterminedIff(cronjobs: seq<CronJob>, rss: seq<seq<JobResponse>>)
    requires Distinguishable(cronjobs) && |rss| == |cronjobs|
    ensures SendsOneSequence(cronjobs, rss) <==> forall i :: 0 <= i < |rss| ==> Determined(rss[i])
  {
    if forall i :: 0 <= i < |rss| ==> Determined(rss[i]) {
      forall sent1, sent2 | MaySend(cronjobs, rss, sent1) && MaySend(cronjobs, rss, sent2) ensures sent1 == sent2 {
        DeterminedSendsOnce(cronjobs, rss, sent1, sent2);
      }
    } else {
      var i: nat :| i < |rss| && !Determined(rss[i]);
      var sent1, sent2 := UndeterminedSendsTwo(cronjobs, rss, i);
    }
  }

  // ---------- the pods of one cronjob ----------

  function StartText(p: PodResponse): string { p.startTime }

  // GetCronjobPods sorts the pods by the text of their start times.
  method SortByStartTime(pods: seq<PodResponse>) returns (sorted: seq<PodResponse>)
    ensures SortedPermutation(pods, sorted, StartText, StrLeq)
    ensures InStartOrder(sorted)
  {
    StrLeqIsTotalOrder();
    sorted := SortFunc(pods, StartText, StrLeq);
    forall i, j, a, b | 0 <= i < j < |sorted| && PrintedStart(sorted[i], a) && PrintedStart(sorted[j], b)
      ensures !Before(b, a)
    {
      assert StrLeq(Map(StartText, sorted)[i], Map(StartText, sorted)[j]);
      TimeToStringOrdersChronologically(b, a);
      StrLeqTotal(sorted[i].startTime, sorted[j].startTime);
    }
  }

  predicate PrintedStart(p: PodResponse, t: Option<Time>) { Writable(t) && p.startTime == TimeToString(t) }

  // No pod comes after one that started in a later second; unset start times come first.
  ghost predicate InStartOrder(pods: seq<PodResponse>) {
    forall i, j, a, b :: 0 <= i < j < |pods| && PrintedStart(pods[i], a) && PrintedStart(pods[j], b) ==> !Before(b, a)
  }

  // With distinct start texts GetCronjobPods sends one sequence for all schedules.
  lemma PodsAreSentOnce(cj: CronJob, resps: seq<JobResponse>, c1: CronjobResponse, c2: CronjobResponse,
                        sent1: seq<PodResponse>, sent2: seq<PodResponse>)
    requires IsCronjobResponse(cj, resps, c1) && IsCronjobResponse(cj, resps, c2)
    requires SortedPermutation(c1.jobsPods, sent1, StartText, StrLeq)
    requires SortedPermutation(c2.jobsPods, sent2, StartText, StrLeq)
    requires DistinctKeys(c1.jobsPods, StartText)
    ensures sent1 == sent2
  {
    ResponsesAgree(cj, resps, c1, c2);
    StrLeqIsTotalOrder();
    SortedPermutationIsUnique(c1.jobsPods, sent1, sent2, StartText, StrLeq);
  }
}
