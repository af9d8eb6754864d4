// The key-value store shared by the three collectors and by every stream that polls.  Each
// transaction is one atomic step, encoding is a trusted round trip (decoding an entry of
// another kind fails), and the clock counts the whole Unix seconds Badger compares.
module Store {
  import opened Common
  import opened Objects
  import opened EventList

  const TTL := 15

  const CRONJOBS_KEY := "sk8l_cronjobs"
  const JOBS_KEY := "sk8l_jobs"
  const JOBS_MAPPED_KEY := "sk8l_jobs_mapped"

  function JobPodsKey(job: string): string { "jobs_pods_for_job_" + job }

  function CronJobKey(namespace: string, name: string): string { "sk8l_cronjob_" + namespace + "_" + name }

  datatype Value =
    | CronJobs(cronjobs: seq<CronJob>)
    | Jobs(jobs: seq<Job>)
    | Pods(pods: seq<Pod>)
    | OneCronJob(cronjob: CronJob)

  datatype Entry = Entry(value: Value, expiry: Option<nat>)

  type Entries = map<string, Entry>

  predicate Live(e: Entry, now: nat) { e.expiry.Some? ==> now < e.expiry.value }

  // fault stands for a Get that fails with anything but "key not found".
  datatype GetResult = Found(value: Value) | NotFound | Failed

  function GetFrom(m: Entries, key: string, now: nat, fault: bool): GetResult {
    if fault then Failed
    else if key in m && Live(m[key], now) then Found(m[key].value)
    else NotFound
  }

  datatype Outcome = Committed | Rejected(reason: string) | Panicked

  // ---------- the transactions ----------

  datatype LookupTarget = CronJobTarget(namespace: string, name: string) | JobsTarget

  datatype Step =
    | CronJobStep(now: nat, fault: bool, cronJobEvent: Event<CronJobData>)
    | JobStep(now: nat, fault: bool, jobEvent: Event<JobData>)
    | PodStep(now: nat, fault: bool, podEvent: Event<PodData>)
    | LookupStep(now: nat, fault: bool, target: LookupTarget, api: Result<Value>)

  function TargetKey(t: LookupTarget): string {
    match t
    case CronJobTarget(namespace, name) => CronJobKey(namespace, name)
    case JobsTarget => JOBS_MAPPED_KEY
  }

  // A missing label reads as "".
  function JobNameLabel(p: Pod): string {
    if "job-name" in p.meta.labels then p.meta.labels["job-name"] else ""
  }

  function StepKey(s: Step): string {
    match s
    case CronJobStep(_, _, _) => CRONJOBS_KEY
    case JobStep(_, _, _) => JOBS_KEY
    case PodStep(_, _, ev) => JobPodsKey(JobNameLabel(ev.obj))
    case LookupStep(_, _, t, _) => TargetKey(t)
  }

  // The entry a transaction writes, given what its Get returned.
  function Written(g: GetResult, s: Step): Option<Entry> {
    match s
    case CronJobStep(_, _, ev) => (
      match g
      case NotFound => Some(Entry(CronJobs([ev.obj]), None))
      case Failed => None
      case Found(v) => if v.CronJobs? then Some(Entry(CronJobs(UpdateList(v.cronjobs, ev)), None)) else None)
    case JobStep(_, _, ev) => (
      match g
      case NotFound | Failed => Some(Entry(Jobs([ev.obj]), None))
      case Found(v) => if v.Jobs? then Some(Entry(Jobs(UpdateList(v.jobs, ev)), None)) else None)
    case PodStep(_, _, ev) => (
      match g
      case NotFound | Failed => Some(Entry(Pods([ev.obj]), None))
      case Found(v) => if v.Pods? then Some(Entry(Pods(v.pods + [ev.obj]), None)) else None)
    case LookupStep(now, _, _, api) =>
      if g.NotFound? && api.Ok? then Some(Entry(api.value, Some(now + TTL))) else None
  }

  function After(m: Entries, s: Step): Entries {
    match Written(GetFrom(m, StepKey(s), s.now, s.fault), s)
    case None => m
    case Some(e) => m[StepKey(s) := e]
  }

  // What GetAndStore hands back.
  function Reply(m: Entries, s: Step): Result<Value>
    requires s.LookupStep?
  {
    match GetFrom(m, StepKey(s), s.now, s.fault)
    case Found(v) => Ok(v)
    case NotFound => s.api
    case Failed => Err("txn.Get() failed")
  }

  class DB {
    var entries: Entries

    constructor (initial: Entries)
      ensures entries == initial
    {
      entries := initial;
    }

    method SetEntry(key: string, value: Value, expiry: Option<nat>)
      modifies this
      ensures entries == old(entries)[key := Entry(value, expiry)]
    {
      entries := entries[key := Entry(value, expiry)];
    }

    // handleCronJobEvent: only "key not found" stores the event as a new list; any other error
    // leaves item nil and dereferences it.
    method HandleCronJobEvent(now: nat, fault: bool, ev: Event<CronJobData>) returns (o: Outcome)
      modifies this
      ensures entries == After(old(entries), CronJobStep(now, fault, ev))
      ensures o.Panicked? <==> fault
      ensures !o.Committed? ==> entries == old(entries)
    {
      var item := GetFrom(entries, CRONJOBS_KEY, now, fault);
      match item {
        case NotFound =>
          SetEntry(CRONJOBS_KEY, CronJobs([ev.obj]), None);
          o := Committed;
        case Failed =>
          o := Panicked;
        case Found(v) =>
          if v.CronJobs? {
            var items := ApplyEvent(v.cronjobs, ev);
            SetEntry(CRONJOBS_KEY, CronJobs(items), None);
            o := Committed;
          } else {
            o := Rejected("sk8l#collectCronjobs: Decode() failed");
          }
      }
    }

    // handleJobEvent: any Get error at all stores the event as a new list.
    method HandleJobEvent(now: nat, fault: bool, ev: Event<JobData>) returns (o: Outcome)
      modifies this
      ensures entries == After(old(entries), JobStep(now, fault, ev))
      ensures !o.Panicked? && (fault ==> o.Committed?)
      ensures !o.Committed? ==> entries == old(entries)
    {
      var item := GetFrom(entries, JOBS_KEY, now, fault);
      if !item.Found? {
        SetEntry(JOBS_KEY, Jobs([ev.obj]), None);
        o := Committed;
      } else if item.value.Jobs? {
        var items := ApplyEvent(item.value.jobs, ev);
        SetEntry(JOBS_KEY, Jobs(items), None);
        o := Committed;
      } else {
        o := Rejected("sk8l#collectJobs: Decode() failed");
      }
    }

    // handlePodEvent: append every version, whatever the event type.
    method HandlePodEvent(now: nat, fault: bool, ev: Event<PodData>) returns (o: Outcome)
      modifies this
      ensures entries == After(old(entries), PodStep(now, fault, ev))
      ensures !o.Panicked? && (fault ==> o.Committed?)
      ensures !o.Committed? ==> entries == old(entries)
    {
      var key := JobPodsKey(JobNameLabel(ev.obj));
      var item := GetFrom(entries, key, now, fault);
      if !item.Found? {
        SetEntry(key, Pods([ev.obj]), None);
        o := Committed;
      } else if item.value.Pods? {
        SetEntry(key, Pods(item.value.pods + [ev.obj]), None);
        o := Committed;
      } else {
        o := Rejected("operation#k8sSerializer.Decode");
      }
    }

    // GetAndStore: read through to the API on a miss and keep the answer for TTL seconds.
    // called tells whether the API was called.
    method GetAndStore(now: nat, fault: bool, target: LookupTarget, api: Result<Value>)
      returns (r: Result<Value>, called: bool)
      modifies this
      ensures entries == After(old(entries), LookupStep(now, fault, target, api))
      ensures r == Reply(old(entries), LookupStep(now, fault, target, api))
      ensures called <==> CallsApi(old(entries), LookupStep(now, fault, target, api))
      ensures r.Err? || !called ==> entries == old(entries)
    {
      var key := TargetKey(target);
      called := false;
      var item := GetFrom(entries, key, now, fault);
      if item.NotFound? {
        called := true;
        r := api;
        if api.Ok? {
          SetEntry(key, api.value, Some(now + TTL));
        }
      } else if item.Failed? {
        r := Err("txn.Get() failed");
      } else {
        r := Ok(item.value);
      }
    }

    // FindCronjobs: a missing key reads as an empty list.
    method FindCronjobs(now: nat, fault: bool) returns (r: Result<seq<CronJob>>)
      ensures !fault && CRONJOBS_KEY !in entries ==> r == Ok([])
      ensures !fault && CRONJOBS_KEY in entries && entries[CRONJOBS_KEY].expiry.None? ==>
        r.Ok? == entries[CRONJOBS_KEY].value.CronJobs?
        && (r.Ok? ==> r.value == entries[CRONJOBS_KEY].value.cronjobs)
      ensures fault ==> r.Err?
    {
      var item := GetFrom(entries, CRONJOBS_KEY, now, fault);
      match item {
        case NotFound => r := Ok([]);
        case Failed => r := Err("findCronjobs#get");
        case Found(v) => r := if v.CronJobs? then Ok(v.cronjobs) else Err("findCronjobs#Decode");
      }
    }
  }

  // ---------- whole runs ----------

  predicate CallsApi(m: Entries, s: Step) {
    s.LookupStep? && GetFrom(m, StepKey(s), s.now, s.fault).NotFound?
  }

  function RunSteps(m: Entries, steps: seq<Step>): Entries
    decreases steps
  {
    if steps == [] then m else RunSteps(After(m, steps[0]), steps[1..])
  }

  lemma {:induction false} RunConcat(m: Entries, a: seq<Step>, b: seq<Step>)
    ensures RunSteps(m, a + b) == RunSteps(RunSteps(m, a), b)
    decreases a
  {
    if a == [] {
      assert a + b == b;
    } else {
      assert (a + b)[1..] == a[1..] + b;
      RunConcat(After(m, a[0]), a[1..], b);
    }
  }

  lemma RunOneMore(m: Entries, steps: seq<Step>, s: Step)
    ensures RunSteps(m, steps + [s]) == After(RunSteps(m, steps), s)
  {
    RunConcat(m, steps, [s]);
    assert [s][1..] == [];
    assert RunSteps(RunSteps(m, steps), [s]) == RunSteps(After(RunSteps(m, steps), s), []);
  }

  // ---------- which writer owns which key ----------

  datatype Writer = CronJobCollector | JobCollector | PodCollector | Lookups(target: LookupTarget)

  function WriterOf(s: Step): Writer {
    match s
    case CronJobStep(_, _, _) => CronJobCollector
    case JobStep(_, _, _) => JobCollector
    case PodStep(_, _, _) => PodCollector
    case LookupStep(_, _, t, _) => Lookups(t)
  }

  // A namespace and a name as Kubernetes accepts them hold no underscore.
  predicate ValidTarget(t: LookupTarget) {
    t.CronJobTarget? ==> '_' !in t.namespace && '_' !in t.name
  }

  predicate ValidStep(s: Step) { s.LookupStep? ==> ValidTarget(s.target) }

  // The key of a valid namespace and name is the key of no other pair, valid or not.
  lemma CronJobKeyIsInjective(ns1: string, name1: string, ns2: string, name2: string)
    requires '_' !in ns1 && '_' !in name1
    requires CronJobKey(ns1, name1) == CronJobKey(ns2, name2)
    ensures ns1 == ns2 && name1 == name2
  {
    var p := "sk8l_cronjob_";
    var a, b := ns1 + "_" + name1, ns2 + "_" + name2;
    assert CronJobKey(ns1, name1) == p + a && CronJobKey(ns2, name2) == p + b;
    assert (p + a)[|p|..] == a && (p + b)[|p|..] == b;
    assert b[|ns2|] == '_';
    assert forall i :: 0 <= i < |a| && i != |ns1| ==> a[i] != '_';
    assert |ns1| == |ns2|;
    assert a[..|ns1|] == ns1 && b[..|ns2|] == ns2;
    assert a[|ns1| + 1..] == name1 && b[|ns2| + 1..] == name2;
  }

  // With an underscore in the namespace two pairs can share a key.
  lemma UnderscoresCanCollide()
    ensures CronJobKey("a_b", "c") == CronJobKey("a", "b_c")
  {
    assert "a_b" + "_" + "c" == "a" + "_" + "b_c";
    assert CronJobKey("a_b", "c") == "sk8l_cronjob_" + ("a_b" + "_" + "c");
    assert CronJobKey("a", "b_c") == "sk8l_cronjob_" + ("a" + "_" + "b_c");
  }

  lemma KeyFamilies(namespace: string, name: string, job: string)
    ensures JobPodsKey(job)[0] == 'j'
    ensures CronJobKey(namespace, name)[0] == 's' && CronJobKey(namespace, name)[12] == '_'
    ensures CronJobKey(namespace, name)[5] == 'c'
    ensures CRONJOBS_KEY[0] == 's' && CRONJOBS_KEY[12] == 's'
    ensures JOBS_KEY[0] == 's' && JOBS_KEY[5] == 'j' && JOBS_MAPPED_KEY[0] == 's' && JOBS_MAPPED_KEY[5] == 'j'
    ensures CRONJOBS_KEY[5] == 'c' && |JOBS_KEY| != |JOBS_MAPPED_KEY|
  {
  }

  // Two steps that touch one key belong to one writer.
  lemma KeysSeparateWriters(a: Step, b: Step)
    requires ValidStep(a) && StepKey(a) == StepKey(b)
    ensures WriterOf(a) == WriterOf(b)
  {
    KeyFamilies("", "", "");
    if a.PodStep? { KeyFamilies("", "", JobNameLabel(a.podEvent.obj)); }
    if b.PodStep? { KeyFamilies("", "", JobNameLabel(b.podEvent.obj)); }
    if a.LookupStep? && a.target.CronJobTarget? { KeyFamilies(a.target.namespace, a.target.name, ""); }
    if b.LookupStep? && b.target.CronJobTarget? { KeyFamilies(b.target.namespace, b.target.name, ""); }
    if a.LookupStep? && b.LookupStep? && a.target.CronJobTarget? && b.target.CronJobTarget? {
      CronJobKeyIsInjective(a.target.namespace, a.target.name, b.target.namespace, b.target.name);
    }
  }

  // The fixed keys have one kind of writer each, and lookups share no key with a collector.
  lemma OwnersOfFixedKeys(s: Step)
    ensures StepKey(s) == CRONJOBS_KEY <==> s.CronJobStep?
    ensures StepKey(s) == JOBS_KEY <==> s.JobStep?
    ensures forall t: LookupTarget :: StepKey(s) == TargetKey(t) ==> s.LookupStep?
  {
    KeyFamilies("", "", "");
    if s.PodStep? { KeyFamilies("", "", JobNameLabel(s.podEvent.obj)); }
    if s.LookupStep? && s.target.CronJobTarget? { KeyFamilies(s.target.namespace, s.target.name, ""); }
    forall t: LookupTarget | StepKey(s) == TargetKey(t) ensures s.LookupStep? {
      if t.CronJobTarget? { KeyFamilies(t.namespace, t.name, ""); }
    }
  }

  // ---------- interleaving independence ----------

  function At(m: Entries, key: string): Option<Entry> {
    if key in m then Some(m[key]) else None
  }

  function By(w: Writer): Step -> bool { (s: Step) => WriterOf(s) == w }

  lemma {:induction false} OthersDoNotMatter(m1: Entries, m2: Entries, steps: seq<Step>, key: string, w: Writer)
    requires At(m1, key) == At(m2, key)
    requires forall s | s in steps && StepKey(s) == key :: WriterOf(s) == w
    ensures At(RunSteps(m1, steps), key) == At(RunSteps(m2, Filter(By(w), steps)), key)
    decreases steps
  {
    if steps != [] {
      var s, rest := steps[0], steps[1..];
      if WriterOf(s) == w {
        OthersDoNotMatter(After(m1, s), After(m2, s), rest, key, w);
        assert Filter(By(w), steps) == [s] + Filter(By(w), rest);
        assert ([s] + Filter(By(w), rest))[1..] == Filter(By(w), rest);
      } else {
        OthersDoNotMatter(After(m1, s), m2, rest, key, w);
        assert Filter(By(w), steps) == Filter(By(w), rest);
      }
    }
  }

  // For every interleaving, a key ends with the value its own writer alone would give it.
  lemma WriterAloneDecidesItsKeys(m: Entries, steps: seq<Step>, own: Step)
    requires ValidStep(own)
    ensures At(RunSteps(m, steps), StepKey(own))
         == At(RunSteps(m, Filter(By(WriterOf(own)), steps)), StepKey(own))
  {
    forall s | s in steps && StepKey(s) == StepKey(own) ensures WriterOf(s) == WriterOf(own) {
      KeysSeparateWriters(own, s);
    }
    OthersDoNotMatter(m, m, steps, StepKey(own), WriterOf(own));
  }

  lemma {:induction false} UntouchedKey(m: Entries, steps: seq<Step>, key: string)
    requires forall s | s in steps :: StepKey(s) != key
    ensures At(RunSteps(m, steps), key) == At(m, key)
    decreases steps
  {
    if steps != [] {
      UntouchedKey(After(m, steps[0]), steps[1..], key);
    }
  }

  lemma SameStepsPerWriter(s1: seq<Step>, s2: seq<Step>, s: Step)
    requires forall w :: Filter(By(w), s1) == Filter(By(w), s2)
    requires s in s1
    ensures s in s2
  {
    assert By(WriterOf(s))(s);
    assert s in Filter(By(WriterOf(s)), s1);
    assert s in Filter(By(WriterOf(s)), s2);
  }

  // Two interleavings of the same writers leave the same store.
  lemma InterleavingsAgree(m: Entries, s1: seq<Step>, s2: seq<Step>)
    requires forall s | s in s1 :: ValidStep(s)
    requires forall w :: Filter(By(w), s1) == Filter(By(w), s2)
    ensures RunSteps(m, s1) == RunSteps(m, s2)
  {
    var e1, e2 := RunSteps(m, s1), RunSteps(m, s2);
    forall key ensures At(e1, key) == At(e2, key) {
      if s :| s in s1 && StepKey(s) == key {
        WriterAloneDecidesItsKeys(m, s1, s);
        WriterAloneDecidesItsKeys(m, s2, s);
      } else {
        forall s | s in s2 ensures StepKey(s) != key {
          SameStepsPerWriter(s2, s1, s);
        }
        UntouchedKey(m, s1, key);
        UntouchedKey(m, s2, key);
      }
    }
    forall key ensures key in e1 <==> key in e2 { assert At(e1, key) == At(e2, key); }
    forall key | key in e1 ensures e1[key] == e2[key] { assert At(e1, key) == At(e2, key); }
  }

  // ---------- the collectors' lists inside a whole run ----------

  function CronJobEvents(steps: seq<Step>): seq<Event<CronJobData>> {
    if steps == [] then [] else
      (if steps[0].CronJobStep? then [steps[0].cronJobEvent] else []) + CronJobEvents(steps[1..])
  }

  function JobEvents(steps: seq<Step>): seq<Event<JobData>> {
    if steps == [] then [] else
      (if steps[0].JobStep? then [steps[0].jobEvent] else []) + JobEvents(steps[1..])
  }

  predicate HoldsCronJobs(m: Entries, items: Option<seq<CronJob>>) {
    match items
    case None => CRONJOBS_KEY !in m
    case Some(cjs) => At(m, CRONJOBS_KEY) == Some(Entry(CronJobs(cjs), None))
  }

  predicate HoldsJobs(m: Entries, items: Option<seq<Job>>) {
    match items
    case None => JOBS_KEY !in m
    case Some(jobs) => At(m, JOBS_KEY) == Some(Entry(Jobs(jobs), None))
  }

  // Whatever else runs in between, the stored cronjob list is the fold of the cronjob events.
  lemma {:induction false} CronJobListIsItsFold(m: Entries, steps: seq<Step>, items: Option<seq<CronJob>>)
    requires HoldsCronJobs(m, items)
    requires forall s | s in steps && s.CronJobStep? :: !s.fault
    ensures HoldsCronJobs(RunSteps(m, steps), FoldEvents(items, CronJobEvents(steps)))
    decreases steps
  {
    if steps != [] {
      var s, rest := steps[0], steps[1..];
      if s.CronJobStep? {
        var evs := [s.cronJobEvent] + CronJobEvents(rest);
        assert evs[1..] == CronJobEvents(rest);
        CronJobListIsItsFold(After(m, s), rest, Some(NextList(items, s.cronJobEvent)));
      } else {
        OwnersOfFixedKeys(s);
        assert CronJobEvents(steps) == CronJobEvents(rest);
        CronJobListIsItsFold(After(m, s), rest, items);
      }
    }
  }

  // Likewise for the job list, as long as no Get fails.
  lemma {:induction false} JobListIsItsFold(m: Entries, steps: seq<Step>, items: Option<seq<Job>>)
    requires HoldsJobs(m, items)
    requires forall s | s in steps && s.JobStep? :: !s.fault
    ensures HoldsJobs(RunSteps(m, steps), FoldEvents(items, JobEvents(steps)))
    decreases steps
  {
    if steps != [] {
      var s, rest := steps[0], steps[1..];
      if s.JobStep? {
        var evs := [s.jobEvent] + JobEvents(rest);
        assert evs[1..] == JobEvents(rest);
        JobListIsItsFold(After(m, s), rest, Some(NextList(items, s.jobEvent)));
      } else {
        OwnersOfFixedKeys(s);
        assert JobEvents(steps) == JobEvents(rest);
        JobListIsItsFold(After(m, s), rest, items);
      }
    }
  }

  // A Get that fails otherwise replaces the job list by the event's job.  That is what the
  // event should have done exactly when nothing else was worth keeping.
  lemma FailedGetIsHarmlessIff(m: Entries, now: nat, ev: Event<JobData>, items: seq<Job>)
    requires HoldsJobs(m, Some(items))
    ensures HoldsJobs(After(m, JobStep(now, true, ev)), Some([ev.obj]))
    ensures HoldsJobs(After(m, JobStep(now, true, ev)), Some(UpdateList(items, ev))) <==>
      if IsUpsert(ev) then forall o | o in items :: o.meta.name == ev.obj.meta.name
      else !ev.kind.Deleted? && items == [ev.obj]
  {
    var name := ev.obj.meta.name;
    var kept := Without(items, name);
    assert ev.obj !in kept;
    if IsUpsert(ev) {
      if forall o | o in items :: o.meta.name == name {
        FilterNone(items, NotNamed(name));
        assert kept + [ev.obj] == [ev.obj];
      } else {
        var o :| o in items && o.meta.name != name;
        assert o in kept;
        assert |kept + [ev.obj]| > 1;
      }
    } else if ev.kind.Deleted? {
      assert ev.obj in [ev.obj];
    }
  }
}
