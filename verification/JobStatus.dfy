// Job failure, durations and the response of one job.
module JobStatus {
  import opened Common
  import opened Rfc3339
  import opened Objects
  import opened Responses
  import opened Derive

  // mapper.MapJobCondition
  function MapJobCondition(c: JobCondition): JobConditionResponse {
    JobConditionResponse(c.kind, c.status, TimeToString(Some(c.lastTransition)), c.reason)
  }

  predicate FailedCondition(c: JobCondition) { c.kind == "Failed" }

  // The response of the first condition of type Failed.
  ghost predicate IsFirstFailure(conditions: seq<JobCondition>, r: Option<JobConditionResponse>) {
    match r
    case None => forall c | c in conditions :: !FailedCondition(c)
    case Some(f) => exists i :: 0 <= i < |conditions| && FailedCondition(conditions[i])
                      && f == MapJobCondition(conditions[i])
                      && forall k :: 0 <= k < i ==> !FailedCondition(conditions[k])
  }

  // jobFailed
  method JobFailed(job: Job, pods: seq<PodResponse>)
    returns (failed: bool, failureCondition: Option<JobConditionResponse>, conditions: seq<JobConditionResponse>)
    ensures failed <==> (exists c :: c in job.payload.conditions && FailedCondition(c)) || (exists p :: p in pods && p.failed)
    ensures IsFirstFailure(job.payload.conditions, failureCondition)
    ensures conditions == Map(MapJobCondition, job.payload.conditions)
  {
    var all := job.payload.conditions;
    failed, failureCondition, conditions := false, None, [];
    for i := 0 to |all|
      invariant failed <==> exists k :: 0 <= k < i && FailedCondition(all[k])
      invariant failed <==> failureCondition.Some?
      invariant failed ==> exists k :: 0 <= k < i && FailedCondition(all[k])
                             && failureCondition.value == MapJobCondition(all[k])
                             && forall m :: 0 <= m < k ==> !FailedCondition(all[m])
      invariant conditions == Map(MapJobCondition, all[..i])
    {
      if !failed {
        if all[i].kind == JOB_FAILED {
          assert FailedCondition(all[i]);
          failed := true;
          failureCondition := Some(MapJobCondition(all[i]));
        }
      }
      assert all[..i + 1] == all[..i] + [all[i]];
      conditions := conditions + [MapJobCondition(all[i])];
    }
    assert all[..|all|] == all;
    ghost var byCondition := failed;
    for i := 0 to |pods|
      invariant failed <==> byCondition || exists k :: 0 <= k < i && pods[k].failed
    {
      if pods[i].failed {
        failed := true;
      }
    }
  }

  // ---------- durations ----------

  function Nanoseconds(t: Time): int { t.sec * 1_000_000_000 + t.nsec }

  // Conversion to whole seconds truncates toward zero.
  function WholeSeconds(d: int): (s: int)
    ensures d >= 0 ==> s * 1_000_000_000 <= d < (s + 1) * 1_000_000_000
    ensures d <= 0 ==> (s - 1) * 1_000_000_000 < d <= s * 1_000_000_000
  {
    if d >= 0 then d / 1_000_000_000 else -(-d / 1_000_000_000)
  }

  // The transition toDuration measures a failed job to, when it has one.
  function FailureTime(failed: bool, condition: Option<JobConditionResponse>): Option<Time> {
    if failed && condition.Some? then Parse(condition.value.lastTransition) else None
  }

  function ToDuration(job: Job, failed: bool, condition: Option<JobConditionResponse>, now: Time): int {
    if job.payload.startTime.None? then 0
    else
      var start := Nanoseconds(job.payload.startTime.value);
      match (FailureTime(failed, condition), job.payload.completionTime)
      case (Some(t), _) => Nanoseconds(t) - start
      case (None, Some(t)) => Nanoseconds(t) - start
      case (None, None) => Nanoseconds(now) - start
  }

  predicate Settled(job: Job, failed: bool, condition: Option<JobConditionResponse>) {
    job.payload.startTime.None? || job.payload.completionTime.Some? || FailureTime(failed, condition).Some?
  }

  // A duration stops moving with the clock exactly when the job has not started, has completed,
  // or failed with a condition whose transition time is set.  Until then it is zero at the start
  // time and grows with the clock.
  lemma DurationIsSettledIff(job: Job, failed: bool, condition: Option<JobConditionResponse>)
    ensures (forall a, b :: ToDuration(job, failed, condition, a) == ToDuration(job, failed, condition, b))
       <==> Settled(job, failed, condition)
    ensures !Settled(job, failed, condition) ==>
      ToDuration(job, failed, condition, job.payload.startTime.value) == 0
    ensures !Settled(job, failed, condition) ==> forall a, b ::
      ToDuration(job, failed, condition, a) - ToDuration(job, failed, condition, b) == Nanoseconds(a) - Nanoseconds(b)
  {
    var a, b := Time(0, 0), Time(1, 0);
    assert Nanoseconds(a) != Nanoseconds(b);
    if !Settled(job, failed, condition) {
      assert ToDuration(job, failed, condition, a) != ToDuration(job, failed, condition, b);
    }
  }

  // The transition time survives its trip through text, to the second; an unset one is ignored.
  lemma FailureTimeIsTransition(c: JobCondition)
    requires FourDigitYear(c.lastTransition)
    ensures FailureTime(true, Some(MapJobCondition(c)))
         == if IsZero(c.lastTransition) then None else Some(Truncate(c.lastTransition))
  {
    ParsePrinted(c.lastTransition);
  }

  // ---------- one job ----------

  // pods is what FindJobPodsForJob returned, or nothing when it failed.
  ghost predicate IsJobResponse(job: Job, pods: seq<Pod>, now: Time, r: JobResponse) {
    && r.name == job.meta.name
    && r.creationTimestamp == Format(job.meta.creation)
    && r.active == job.payload.active
    && r.completionTime == TimeToString(job.payload.completionTime)
    && ArePodResponses(pods, r.pods)
    && (r.failed <==> (exists c :: c in job.payload.conditions && FailedCondition(c)) || (exists p :: p in r.pods && p.failed))
    && IsFirstFailure(job.payload.conditions, r.failureCondition)
    && r.conditions == Map(MapJobCondition, job.payload.conditions)
    && r.durationInS == WholeSeconds(ToDuration(job, r.failed, r.failureCondition, now))
    && r.reasons == Flatten(Map(ReasonsOf, r.pods))
  }

  function ReasonsOf(p: PodResponse): seq<TerminationReason> { p.reasons }

  method CollectReasons(pods: seq<PodResponse>) returns (reasons: seq<TerminationReason>)
    ensures reasons == Flatten(Map(ReasonsOf, pods))
  {
    reasons := [];
    for i := 0 to |pods|
      invariant reasons == Flatten(Map(ReasonsOf, pods[..i]))
    {
      assert Map(ReasonsOf, pods[..i + 1]) == Map(ReasonsOf, pods[..i]) + [pods[i].reasons];
      FlattenConcat(Map(ReasonsOf, pods[..i]), [pods[i].reasons]);
      assert Flatten([pods[i].reasons]) == pods[i].reasons + Flatten([]);
      reasons := reasons + pods[i].reasons;
    }
    assert pods[..|pods|] == pods;
  }

  method BuildJobResponse(job: Job, found: Result<seq<Pod>>, now: Time) returns (r: JobResponse)
    ensures IsJobResponse(job, if found.Ok? then found.value else [], now, r)
  {
    var pods := if found.Ok? then found.value else [];
    var podResponses := BuildJobPodsResponses(pods);
    var failed, condition, conditions := JobFailed(job, podResponses);
    var seconds := WholeSeconds(ToDuration(job, failed, condition, now));
    var reasons := CollectReasons(podResponses);
    r := JobResponse(job.meta.name, Format(job.meta.creation), job.payload.active,
                     TimeToString(job.payload.completionTime), seconds, failed, condition, conditions,
                     podResponses, reasons);
  }

  predicate JobFails(job: Job, pods: seq<Pod>) {
    || (exists c :: c in job.payload.conditions && FailedCondition(c))
    || (exists p :: p in pods && HasFailingContainer(p))
  }

  lemma SomeAgree<A, B>(a: seq<A>, b: seq<B>, p: A -> bool, q: B -> bool)
    requires |a| == |b| && forall i :: 0 <= i < |a| ==> p(a[i]) == q(b[i])
    ensures (exists x :: x in a && p(x)) <==> (exists y :: y in b && q(y))
  {
    if x :| x in a && p(x) {
      var i :| 0 <= i < |a| && a[i] == x;
      assert b[i] in b;
    }
    if y :| y in b && q(y) {
      var i :| 0 <= i < |b| && b[i] == y;
      assert a[i] in a;
    }
  }

  predicate PodFailed(p: PodResponse) { p.failed }

  lemma SomePodFailedIff(pods: seq<Pod>, rs: seq<PodResponse>)
    requires ArePodResponses(pods, rs)
    ensures (exists p :: p in rs && p.failed) <==> (exists p :: p in pods && HasFailingContainer(p))
  {
    forall i | 0 <= i < |pods| ensures PodFailed(rs[i]) == HasFailingContainer(pods[i]) {
      PodFailedIff(pods[i], rs[i]);
    }
    SomeAgree(rs, pods, PodFailed, HasFailingContainer);
    assert (exists p :: p in rs && p.failed) <==> (exists p :: p in rs && PodFailed(p));
  }

  // Why a reported pod fails a job.
  predicate HasErrorState(p: Pod) {
    exists st :: st in p.payload.ephemeral + p.payload.init + p.payload.regular
      && ((st.waiting.Some? && st.waiting.value.reason == "CreateContainerConfigError")
          || (st.terminated.Some? && st.terminated.value.reason == "Error"))
  }

  lemma ErrorStatesFail(p: Pod)
    ensures HasErrorState(p) <==> HasFailingContainer(p)
  {
  }

  // A job is failed if and only if it has a condition of type Failed, whatever its status, or
  // one of its reported pods has a failing container.
  lemma JobFailedIff(job: Job, pods: seq<Pod>, now: Time, r: JobResponse)
    requires IsJobResponse(job, pods, now, r)
    ensures r.failed <==> JobFails(job, pods)
    ensures r.failed <==>
      || (exists c :: c in job.payload.conditions && c.kind == "Failed")
      || (exists p :: p in pods && HasErrorState(p))
  {
    SomePodFailedIff(pods, r.pods);
    forall p ensures HasErrorState(p) <==> HasFailingContainer(p) { ErrorStatesFail(p); }
    assert forall c :: FailedCondition(c) <==> c.kind == "Failed";
  }

  lemma FirstFailureIsOne(conditions: seq<JobCondition>, a: Option<JobConditionResponse>, b: Option<JobConditionResponse>)
    requires IsFirstFailure(conditions, a) && IsFirstFailure(conditions, b)
    ensures a == b
  {
  }

  // A job, its pods and the clock determine the response.
  lemma JobResponseIsDetermined(job: Job, pods: seq<Pod>, now: Time, r1: JobResponse, r2: JobResponse)
    requires IsJobResponse(job, pods, now, r1) && IsJobResponse(job, pods, now, r2)
    ensures r1 == r2
  {
    FirstFailureIsOne(job.payload.conditions, r1.failureCondition, r2.failureCondition);
    PodResponsesAreDetermined(pods, r1.pods, r2.pods);
  }

  // ---------- what the duration is ----------

  // The transition time of the first condition of type Failed.
  function FirstTransition(conditions: seq<JobCondition>): Option<Time> {
    if conditions == [] then None
    else if conditions[0].kind == "Failed" then Some(conditions[0].lastTransition)
    else FirstTransition(conditions[1..])
  }

  lemma {:induction false} FirstTransitionAt(conditions: seq<JobCondition>, i: nat)
    requires i < |conditions| && conditions[i].kind == "Failed"
    requires forall k :: 0 <= k < i ==> conditions[k].kind != "Failed"
    ensures FirstTransition(conditions) == Some(conditions[i].lastTransition)
  {
    if i > 0 { FirstTransitionAt(conditions[1..], i - 1); }
  }

  lemma {:induction false} NoTransition(conditions: seq<JobCondition>)
    requires forall c | c in conditions :: c.kind != "Failed"
    ensures FirstTransition(conditions) == None
  {
    if conditions != [] { NoTransition(conditions[1..]); }
  }

  lemma FirstFailureHasTransition(conditions: seq<JobCondition>, f: Option<JobConditionResponse>)
    requires IsFirstFailure(conditions, f)
    ensures f.Some? <==> FirstTransition(conditions).Some?
    ensures f.Some? ==> f.value.lastTransition == TimeToString(FirstTransition(conditions))
  {
    if f.Some? {
      var i :| 0 <= i < |conditions| && FailedCondition(conditions[i]) && f.value == MapJobCondition(conditions[i])
               && forall k :: 0 <= k < i ==> !FailedCondition(conditions[k]);
      FirstTransitionAt(conditions, i);
    } else {
      assert forall c | c in conditions :: c.kind != "Failed" by {
        assert forall c | c in conditions :: !FailedCondition(c);
      }
      NoTransition(conditions);
    }
  }

  // d is the time from a to b in whole seconds, fractions dropped.
  predicate WholeSecondsFrom(a: Time, b: Time, d: int) {
    var from, to := a.sec * 1_000_000_000 + a.nsec, b.sec * 1_000_000_000 + b.nsec;
    if from <= to then from + d * 1_000_000_000 <= to < from + (d + 1) * 1_000_000_000
    else from + (d - 1) * 1_000_000_000 < to <= from + d * 1_000_000_000
  }

  lemma TruncatedDifference(a: Time, b: Time)
    ensures WholeSecondsFrom(a, b, WholeSeconds(Nanoseconds(b) - Nanoseconds(a)))
  {
  }

  // A printed transition time counts when it is set and its year has four digits.
  predicate Counts(t: Option<Time>) { t.Some? && !IsZero(t.value) && FourDigitYear(t.value) }

  lemma FailureTimeIsFirstTransition(job: Job, pods: seq<Pod>, now: Time, r: JobResponse)
    requires IsJobResponse(job, pods, now, r)
    ensures var t := FirstTransition(job.payload.conditions);
      FailureTime(r.failed, r.failureCondition) == if Counts(t) then Some(Time(t.value.sec, 0)) else None
  {
    var t := FirstTransition(job.payload.conditions);
    FirstFailureHasTransition(job.payload.conditions, r.failureCondition);
    if t.Some? {
      assert r.failed by { SomeFailedCondition(job.payload.conditions, r.failureCondition); }
      ParseOfText(t.value);
    }
  }

  lemma SomeFailedCondition(conditions: seq<JobCondition>, f: Option<JobConditionResponse>)
    requires IsFirstFailure(conditions, f) && f.Some?
    ensures exists c :: c in conditions && FailedCondition(c)
  {
  }

  lemma ElapsedTo(job: Job, failed: bool, condition: Option<JobConditionResponse>, now: Time, end: Time)
    requires job.payload.startTime.Some?
    requires end == match (FailureTime(failed, condition), job.payload.completionTime)
      case (Some(t), _) => t
      case (None, Some(t)) => t
      case (None, None) => now
    ensures WholeSecondsFrom(job.payload.startTime.value, end, WholeSeconds(ToDuration(job, failed, condition, now)))
  {
    TruncatedDifference(job.payload.startTime.value, end);
  }

  // What durationInS means: nothing for a job that has not started; else the whole seconds from
  // its start to the transition of its first Failed condition if that counts, completed or not;
  // else to its completion; else to now.
  lemma DurationIsElapsed(job: Job, pods: seq<Pod>, now: Time, r: JobResponse)
    requires IsJobResponse(job, pods, now, r)
    ensures job.payload.startTime.None? ==> r.durationInS == 0
    ensures var t := FirstTransition(job.payload.conditions);
      job.payload.startTime.Some? && Counts(t) ==>
        WholeSecondsFrom(job.payload.startTime.value, Time(t.value.sec, 0), r.durationInS)
    ensures var t := FirstTransition(job.payload.conditions);
      job.payload.startTime.Some? && !Counts(t) && job.payload.completionTime.Some? ==>
        WholeSecondsFrom(job.payload.startTime.value, job.payload.completionTime.value, r.durationInS)
    ensures var t := FirstTransition(job.payload.conditions);
      job.payload.startTime.Some? && !Counts(t) && job.payload.completionTime.None? ==>
        WholeSecondsFrom(job.payload.startTime.value, now, r.durationInS)
  {
    FailureTimeIsFirstTransition(job, pods, now, r);
    DurationOfResponse(job, pods, now, r);
    var t := FirstTransition(job.payload.conditions);
    if job.payload.startTime.Some? {
      var end := if Counts(t) then Time(t.value.sec, 0)
                 else if job.payload.completionTime.Some? then job.payload.completionTime.value else now;
      ElapsedTo(job, r.failed, r.failureCondition, now, end);
    }
  }

  lemma DurationOfResponse(job: Job, pods: seq<Pod>, now: Time, r: JobResponse)
    requires IsJobResponse(job, pods, now, r)
    ensures r.durationInS == WholeSeconds(ToDuration(job, r.failed, r.failureCondition, now))
  {
  }

  // ---------- the other fields ----------

  ghost predicate SaysCondition(r: JobConditionResponse, c: JobCondition) {
    && r.kind == c.kind && r.status == c.status && r.reason == c.reason
    && r.lastTransition == TimeToString(Some(c.lastTransition))
  }

  lemma {:induction false} FlattenedMap<A, B>(f: A -> seq<B>, s: seq<A>)
    ensures Flatten(Map(f, s)) == FlatMap(f, s)
  {
    if s != [] {
      var front, last := s[..|s| - 1], s[|s| - 1];
      FlattenedMap(f, front);
      assert Map(f, s) == Map(f, front) + [f(last)];
      FlattenConcat(Map(f, front), [f(last)]);
      assert Flatten([f(last)]) == f(last) + Flatten([]);
    }
  }

  // The failure condition is the response of the first condition of type Failed.
  ghost predicate CarriesFailure(conditions: seq<JobConditionResponse>, f: Option<JobConditionResponse>) {
    match f
    case None => forall i :: 0 <= i < |conditions| ==> conditions[i].kind != "Failed"
    case Some(c) => exists i :: 0 <= i < |conditions| && c == conditions[i] && c.kind == "Failed"
                      && forall k :: 0 <= k < i ==> conditions[k].kind != "Failed"
  }

  lemma FirstFailureIsCarried(conditions: seq<JobCondition>, f: Option<JobConditionResponse>)
    requires IsFirstFailure(conditions, f)
    ensures CarriesFailure(Map(MapJobCondition, conditions), f)
  {
    var all := Map(MapJobCondition, conditions);
    forall i | 0 <= i < |all| ensures all[i].kind == "Failed" <==> FailedCondition(conditions[i]) {}
    if f.Some? {
      var i :| 0 <= i < |conditions| && FailedCondition(conditions[i]) && f.value == MapJobCondition(conditions[i])
               && forall k :: 0 <= k < i ==> !FailedCondition(conditions[k]);
      assert f.value == all[i];
    }
  }

  // The conditions are carried over one by one, and the reasons are those of the pods, pod after
  // pod.
  lemma ResponseCarriesJob(job: Job, pods: seq<Pod>, now: Time, r: JobResponse)
    requires IsJobResponse(job, pods, now, r)
    ensures r.name == job.meta.name && r.active == job.payload.active
    ensures r.completionTime == TimeToString(job.payload.completionTime)
    ensures |r.conditions| == |job.payload.conditions|
    ensures forall i :: 0 <= i < |r.conditions| ==> SaysCondition(r.conditions[i], job.payload.conditions[i])
    ensures CarriesFailure(r.conditions, r.failureCondition)
    ensures r.reasons == FlatMap((p: PodResponse) => p.reasons, r.pods)
  {
    FirstFailureIsCarried(job.payload.conditions, r.failureCondition);
    FlattenedMap(ReasonsOf, r.pods);
    FlatMapAgrees(ReasonsOf, (p: PodResponse) => p.reasons, r.pods);
  }

  lemma {:induction false} FlatMapAgrees<A, B>(f: A -> seq<B>, g: A -> seq<B>, s: seq<A>)
    requires forall x | x in s :: f(x) == g(x)
    ensures FlatMap(f, s) == FlatMap(g, s)
  {
    if s != [] { FlatMapAgrees(f, g, s[..|s| - 1]); }
  }
}
