// From container states to pod failure, termination reasons and finish time.  A container
// response is one object shared by the terminated and the failed list: its reason is set after
// it has been appended to the first and before it is appended to the second.
module Derive {
  import opened Common
  import opened Rfc3339
  import opened Objects
  import opened Responses

  const CONFIG_ERROR := "CreateContainerConfigError"
  const ERROR := "Error"
  const JOB_FAILED := "Failed"

  // mapper.MapContainerStateTerminated
  function MapTerminated(t: Terminated): TerminationDetails {
    TerminationDetails(t.exitCode, t.reason, t.message, TimeToString(Some(t.startedAt)), TimeToString(Some(t.finishedAt)))
  }

  class ContainerResponse {
    const status: ContainerStatus
    const phase: string
    var terminatedReason: Option<TerminationReason>

    constructor (status: ContainerStatus, phase: string)
      ensures this.status == status && this.phase == phase && terminatedReason == None
    {
      this.status := status;
      this.phase := phase;
      terminatedReason := None;
    }
  }

  // ---------- the states of a pod's containers ----------

  // One element for each state that gets a container response.
  datatype ContainerState = WaitingState(status: ContainerStatus) | TerminatedState(status: ContainerStatus)

  function StatesOf(st: ContainerStatus): seq<ContainerState> {
    (if st.waiting.Some? then [WaitingState(st)] else [])
    + (if st.terminated.Some? then [TerminatedState(st)] else [])
  }

  function States(sts: seq<ContainerStatus>): seq<ContainerState> { FlatMap(StatesOf, sts) }

  predicate FailingState(s: ContainerState) {
    match s
    case WaitingState(st) => st.waiting.Some? && st.waiting.value.reason == "CreateContainerConfigError"
    case TerminatedState(st) => st.terminated.Some? && st.terminated.value.reason == "Error"
  }

  // What the reason of a failing state says, field by field.
  ghost predicate Explains(reason: TerminationReason, pod: Pod, s: ContainerState) {
    && reason.containerName == s.status.name
    && match s
       case WaitingState(st) =>
         && st.waiting.Some?
         && reason.details.exitCode == 0 && reason.details.reason == st.waiting.value.reason
         && reason.details.message == st.waiting.value.message
         && reason.details.startedAt == "" && reason.details.finishedAt == TimeToString(pod.payload.startTime)
       case TerminatedState(st) =>
         && st.terminated.Some?
         && reason.details.exitCode == st.terminated.value.exitCode
         && reason.details.reason == st.terminated.value.reason
         && reason.details.message == st.terminated.value.message
         && reason.details.startedAt == TimeToString(Some(st.terminated.value.startedAt))
         && reason.details.finishedAt == TimeToString(Some(st.terminated.value.finishedAt))
  }

  predicate IsWaiting(st: ContainerStatus) { st.waiting.Some? }
  predicate IsTerminated(st: ContainerStatus) { st.terminated.Some? }

  lemma {:induction false} StatesAreCounted(sts: seq<ContainerStatus>)
    ensures |States(sts)| == Count(IsWaiting, sts) + Count(IsTerminated, sts)
  {
    if sts != [] {
      var last := |sts| - 1;
      StatesAreCounted(sts[..last]);
      CountOneMore(IsWaiting, sts, last);
      CountOneMore(IsTerminated, sts, last);
      assert sts[..last + 1] == sts;
    }
  }

  // ---------- what the two lists should hold ----------

  function WaitingReason(pod: Pod, st: ContainerStatus): Option<TerminationReason>
    requires st.waiting.Some?
  {
    var w := st.waiting.value;
    if w.reason == CONFIG_ERROR
    then Some(TerminationReason(st.name, TerminationDetails(0, w.reason, w.message, "", TimeToString(pod.payload.startTime))))
    else None
  }

  function TerminatedReason(st: ContainerStatus): Option<TerminationReason>
    requires st.terminated.Some?
  {
    if st.terminated.value.reason == ERROR
    then Some(TerminationReason(st.name, MapTerminated(st.terminated.value)))
    else None
  }

  // One entry for a waiting state and one for a terminated state, with the reason if failing.
  function WaitingEntry(pod: Pod, st: ContainerStatus): seq<Option<TerminationReason>> {
    if st.waiting.Some? then [WaitingReason(pod, st)] else []
  }

  function TerminatedEntry(st: ContainerStatus): seq<Option<TerminationReason>> {
    if st.terminated.Some? then [TerminatedReason(st)] else []
  }

  function Entries(pod: Pod, st: ContainerStatus): seq<Option<TerminationReason>> {
    WaitingEntry(pod, st) + TerminatedEntry(st)
  }

  function AllEntries(pod: Pod, sts: seq<ContainerStatus>): seq<Option<TerminationReason>> {
    if sts == [] then [] else AllEntries(pod, sts[..|sts| - 1]) + Entries(pod, sts[|sts| - 1])
  }

  function Somes<T>(s: seq<Option<T>>): seq<T> {
    if s == [] then [] else
      Somes(s[..|s| - 1]) + (if s[|s| - 1].Some? then [s[|s| - 1].value] else [])
  }

  // The shared objects carry these reasons, in order.
  ghost predicate Records(cs: seq<ContainerResponse>, entries: seq<Option<TerminationReason>>)
    reads cs
  {
    |cs| == |entries| && forall i :: 0 <= i < |cs| ==> cs[i].terminatedReason == entries[i]
  }

  // The subsequence of the objects whose entry has a reason.
  function WithReason(cs: seq<ContainerResponse>, entries: seq<Option<TerminationReason>>): seq<ContainerResponse>
    requires |cs| == |entries|
  {
    if cs == [] then [] else
      var last := |cs| - 1;
      WithReason(cs[..last], entries[..last]) + (if entries[last].Some? then [cs[last]] else [])
  }

  lemma WithReasonAppend(cs: seq<ContainerResponse>, entries: seq<Option<TerminationReason>>,
                         c: ContainerResponse, e: Option<TerminationReason>)
    requires |cs| == |entries|
    ensures WithReason(cs + [c], entries + [e]) == WithReason(cs, entries) + (if e.Some? then [c] else [])
  {
    assert (cs + [c])[..|cs|] == cs && (entries + [e])[..|cs|] == entries;
  }

  // failed is the subsequence of the objects that carry a reason.
  ghost predicate KeepsFailing(terminated: seq<ContainerResponse>, failed: seq<ContainerResponse>)
    reads terminated
  {
    && (forall i :: 0 <= i < |failed| ==> failed[i] in terminated)
    && (forall p :: 0 <= p < |terminated| ==> (terminated[p] in failed <==> terminated[p].terminatedReason.Some?))
    && (forall i, j :: 0 <= i < j < |failed| ==> InOrder(terminated, failed[i], failed[j]))
  }

  ghost predicate InOrder(cs: seq<ContainerResponse>, c: ContainerResponse, d: ContainerResponse) {
    exists p, q :: 0 <= p < q < |cs| && cs[p] == c && cs[q] == d
  }

  // Each failed object's reason is reported, in order.
  ghost predicate Reported(failed: seq<ContainerResponse>, reasons: seq<TerminationReason>)
    reads failed
  {
    |reasons| == |failed| && forall i :: 0 <= i < |failed| ==> failed[i].terminatedReason == Some(reasons[i])
  }

  // The object of a state: its status, the pod's phase, and a reason if and only if it is failing.
  ghost predicate Shows(c: ContainerResponse, pod: Pod, s: ContainerState)
    reads c
  {
    && c.status == s.status && c.phase == pod.payload.phase
    && (c.terminatedReason.Some? <==> FailingState(s))
    && (c.terminatedReason.Some? ==> Explains(c.terminatedReason.value, pod, s))
  }

  // One object per state of the statuses, in status order.
  ghost predicate ShowsAll(cs: seq<ContainerResponse>, pod: Pod, states: seq<ContainerState>)
    reads cs
  {
    |cs| == |states| && forall i :: 0 <= i < |cs| ==> Shows(cs[i], pod, states[i])
  }

  lemma RecordsShowStates(cs: seq<ContainerResponse>, pod: Pod, sts: seq<ContainerStatus>)
    requires Records(cs, AllEntries(pod, sts)) && FromStates(cs, States(sts), pod.payload.phase)
    ensures ShowsAll(cs, pod, States(sts))
  {
    EntriesOfStates(pod, sts);
    forall i | 0 <= i < |cs| ensures Shows(cs[i], pod, States(sts)[i]) {
      assert EntryFits(AllEntries(pod, sts)[i], pod, States(sts)[i]);
    }
  }

  lemma FailedComeInOrder(cs: seq<ContainerResponse>, failed: seq<ContainerResponse>, more: seq<ContainerResponse>, c: ContainerResponse)
    requires forall i :: 0 <= i < |failed| ==> failed[i] in cs
    requires forall i, j :: 0 <= i < j < |failed| ==> InOrder(cs, failed[i], failed[j])
    requires more == failed || more == failed + [c]
    ensures forall i, j :: 0 <= i < j < |more| ==> InOrder(cs + [c], more[i], more[j])
  {
    var all := cs + [c];
    forall i, j | 0 <= i < j < |more| ensures InOrder(all, more[i], more[j]) {
      if j < |failed| {
        assert InOrder(cs, failed[i], failed[j]);
        var p, q :| 0 <= p < q < |cs| && cs[p] == failed[i] && cs[q] == failed[j];
        assert all[p] == more[i] && all[q] == more[j];
      } else {
        assert more[i] == failed[i] && more[j] == c;
        var p :| 0 <= p < |cs| && cs[p] == failed[i];
        assert all[p] == more[i] && all[|cs|] == c;
      }
    }
  }

  lemma {:induction false} WithReasonKeeps(cs: seq<ContainerResponse>, entries: seq<Option<TerminationReason>>)
    requires Records(cs, entries)
    ensures KeepsFailing(cs, WithReason(cs, entries))
    ensures Reported(WithReason(cs, entries), Somes(entries))
  {
    if cs != [] {
      var last := |cs| - 1;
      WithReasonKeeps(cs[..last], entries[..last]);
      assert cs == cs[..last] + [cs[last]];
      FailedComeInOrder(cs[..last], WithReason(cs[..last], entries[..last]), WithReason(cs, entries), cs[last]);
    }
  }

  ghost predicate AllDistinct(cs: seq<ContainerResponse>) {
    forall i, j :: 0 <= i < j < |cs| ==> cs[i] != cs[j]
  }

  // The entries are the states, each with its reason if it is failing.
  lemma {:induction false} EntriesOfStates(pod: Pod, sts: seq<ContainerStatus>)
    ensures |AllEntries(pod, sts)| == |States(sts)|
    ensures forall i :: 0 <= i < |States(sts)| ==> EntryFits(AllEntries(pod, sts)[i], pod, States(sts)[i])
  {
    if sts != [] {
      EntriesOfStates(pod, sts[..|sts| - 1]);
      EntriesOfOne(pod, sts[|sts| - 1]);
    }
  }

  ghost predicate EntryFits(e: Option<TerminationReason>, pod: Pod, s: ContainerState) {
    (e.Some? <==> FailingState(s)) && (e.Some? ==> Explains(e.value, pod, s))
  }

  lemma EntriesOfOne(pod: Pod, st: ContainerStatus)
    ensures |Entries(pod, st)| == |StatesOf(st)|
    ensures forall i :: 0 <= i < |StatesOf(st)| ==> EntryFits(Entries(pod, st)[i], pod, StatesOf(st)[i])
  {
  }

  lemma SomesAppend<T>(s: seq<Option<T>>, x: Option<T>)
    ensures Somes(s + [x]) == Somes(s) + (if x.Some? then [x.value] else [])
  {
    assert (s + [x])[..|s|] == s;
  }

  lemma {:induction false} SomesConcat<T>(a: seq<Option<T>>, b: seq<Option<T>>)
    ensures Somes(a + b) == Somes(a) + Somes(b)
  {
    if b == [] {
      assert a + b == a;
    } else {
      assert (a + b)[..|a + b| - 1] == a + b[..|b| - 1];
      SomesConcat(a, b[..|b| - 1]);
    }
  }

  // Append one container response and, when the state is failing, set its reason and append
  // the same object to the failed list.
  method AppendContainer(
    st: ContainerStatus, phase: string, reason: Option<TerminationReason>,
    terminated: seq<ContainerResponse>, failed: seq<ContainerResponse>, reasons: seq<TerminationReason>,
    ghost entries: seq<Option<TerminationReason>>)
    returns (cr: ContainerResponse, terminated': seq<ContainerResponse>,
             failed': seq<ContainerResponse>, reasons': seq<TerminationReason>)
    requires AllDistinct(terminated)
    requires Records(terminated, entries) && failed == WithReason(terminated, entries)
    ensures fresh(cr) && cr.status == st && cr.phase == phase
    ensures terminated' == terminated + [cr] && AllDistinct(terminated') && Records(terminated', entries + [reason])
    ensures failed' == WithReason(terminated', entries + [reason])
    ensures reasons' == reasons + Somes([reason])
  {
    cr := new ContainerResponse(st, phase);
    terminated' := terminated + [cr];
    failed', reasons' := failed, reasons;
    WithReasonAppend(terminated, entries, cr, reason);
    SomesOfOne(reason);
    if reason.Some? {
      cr.terminatedReason := reason;
      reasons' := reasons' + [reason.value];
      failed' := failed' + [cr];
    }
  }

  lemma SomesOfOne<T>(x: Option<T>)
    ensures Somes([x]) == if x.Some? then [x.value] else []
  {
    assert [] + [x] == [x];
    SomesAppend([], x);
  }

  // Do so if the state is there.
  method AppendState(
    st: ContainerStatus, phase: string, state: seq<Option<TerminationReason>>,
    terminated: seq<ContainerResponse>, failed: seq<ContainerResponse>, reasons: seq<TerminationReason>,
    ghost entries: seq<Option<TerminationReason>>)
    returns (terminated': seq<ContainerResponse>, failed': seq<ContainerResponse>, reasons': seq<TerminationReason>)
    requires |state| <= 1
    requires AllDistinct(terminated)
    requires Records(terminated, entries) && failed == WithReason(terminated, entries)
    ensures Extended(terminated, terminated', st, phase) && |terminated'| == |terminated| + |state|
    ensures forall i :: |terminated| <= i < |terminated'| ==> fresh(terminated'[i])
    ensures AllDistinct(terminated') && Records(terminated', entries + state)
    ensures failed' == WithReason(terminated', entries + state)
    ensures reasons' == reasons + Somes(state)
  {
    if |state| == 0 {
      assert entries + state == entries;
      terminated', failed', reasons' := terminated, failed, reasons;
    } else {
      assert state == [state[0]];
      var cr;
      cr, terminated', failed', reasons' :=
        AppendContainer(st, phase, state[0], terminated, failed, reasons, entries);
    }
  }

  // The new elements of cs' come from one status.
  ghost predicate Extended(cs: seq<ContainerResponse>, cs': seq<ContainerResponse>, st: ContainerStatus, phase: string) {
    cs <= cs' && forall i :: |cs| <= i < |cs'| ==> cs'[i].status == st && cs'[i].phase == phase
  }

  ghost predicate FromStates(cs: seq<ContainerResponse>, states: seq<ContainerState>, phase: string) {
    |cs| == |states| && forall i :: 0 <= i < |cs| ==> cs[i].status == states[i].status && cs[i].phase == phase
  }

  // The body of the loop: a status can have a waiting and a terminated state, and gives a
  // container response for each.
  method CollectStatus(
    pod: Pod, st: ContainerStatus,
    terminated: seq<ContainerResponse>, failed: seq<ContainerResponse>, reasons: seq<TerminationReason>,
    ghost entries: seq<Option<TerminationReason>>)
    returns (terminated': seq<ContainerResponse>, failed': seq<ContainerResponse>, reasons': seq<TerminationReason>)
    requires AllDistinct(terminated)
    requires Records(terminated, entries) && failed == WithReason(terminated, entries)
    ensures Extended(terminated, terminated', st, pod.payload.phase)
    ensures |terminated'| == |terminated| + |StatesOf(st)|
    ensures forall k :: 0 <= k < |StatesOf(st)| ==> Shows(terminated'[|terminated| + k], pod, StatesOf(st)[k])
    ensures forall i :: |terminated| <= i < |terminated'| ==> fresh(terminated'[i])
    ensures AllDistinct(terminated') && Records(terminated', entries + Entries(pod, st))
    ensures failed' == WithReason(terminated', entries + Entries(pod, st))
    ensures reasons' == reasons + Somes(Entries(pod, st))
  {
    var first, second := WaitingEntry(pod, st), TerminatedEntry(st);
    ConcatAssociative(entries, first, second);
    SomesConcat(first, second);
    ConcatAssociative(reasons, Somes(first), Somes(second));
    terminated', failed', reasons' :=
      AppendState(st, pod.payload.phase, first, terminated, failed, reasons, entries);
    terminated', failed', reasons' :=
      AppendState(st, pod.payload.phase, second, terminated', failed', reasons', entries + first);
    NewObjectsShow(pod, st, terminated, terminated', entries);
  }

  lemma NewObjectsShow(pod: Pod, st: ContainerStatus, cs: seq<ContainerResponse>, cs': seq<ContainerResponse>,
                       entries: seq<Option<TerminationReason>>)
    requires Extended(cs, cs', st, pod.payload.phase) && |cs| == |entries|
    requires Records(cs', entries + Entries(pod, st))
    ensures |cs'| == |cs| + |StatesOf(st)|
    ensures forall k :: 0 <= k < |StatesOf(st)| ==> Shows(cs'[|cs| + k], pod, StatesOf(st)[k])
  {
    EntriesOfOne(pod, st);
    forall k | 0 <= k < |StatesOf(st)| ensures Shows(cs'[|cs| + k], pod, StatesOf(st)[k]) {
      assert (entries + Entries(pod, st))[|cs| + k] == Entries(pod, st)[k];
    }
  }

  lemma OneStatusFrom(cs: seq<ContainerResponse>, cs': seq<ContainerResponse>, sts: seq<ContainerStatus>, i: nat, phase: string)
    requires i < |sts| && FromStates(cs, States(sts[..i]), phase)
    requires Extended(cs, cs', sts[i], phase) && |cs'| == |cs| + |StatesOf(sts[i])|
    ensures FromStates(cs', States(sts[..i + 1]), phase)
  {
    var states := States(sts[..i]);
    assert sts[..i + 1][..i] == sts[..i];
    assert States(sts[..i + 1]) == states + StatesOf(sts[i]);
    forall k | 0 <= k < |cs'| ensures cs'[k].status == (states + StatesOf(sts[i]))[k].status && cs'[k].phase == phase {
      if k < |cs| { assert cs'[k] == cs[k]; }
    }
  }

  method CollectTerminatedAndFailedContainers(pod: Pod, sts: seq<ContainerStatus>, given: seq<TerminationReason>)
    returns (terminated: seq<ContainerResponse>, failed: seq<ContainerResponse>, reasons: seq<TerminationReason>)
    ensures AllDistinct(terminated) && forall i :: 0 <= i < |terminated| ==> fresh(terminated[i])
    ensures |terminated| == Count(IsWaiting, sts) + Count(IsTerminated, sts)
    ensures ShowsAll(terminated, pod, States(sts))
    ensures KeepsFailing(terminated, failed)
    ensures given <= reasons && Reported(failed, reasons[|given|..])
    ensures Records(terminated, AllEntries(pod, sts))
    ensures failed == WithReason(terminated, AllEntries(pod, sts))
    ensures reasons == given + ClassReasons(pod, sts)
    ensures FromStates(terminated, States(sts), pod.payload.phase)
  {
    terminated, failed, reasons := CollectStatuses(pod, sts, given);
    StatesAreCounted(sts);
    RecordsShowStates(terminated, pod, sts);
    WithReasonKeeps(terminated, AllEntries(pod, sts));
  }

  // The loop over the statuses.
  method CollectStatuses(pod: Pod, sts: seq<ContainerStatus>, given: seq<TerminationReason>)
    returns (terminated: seq<ContainerResponse>, failed: seq<ContainerResponse>, reasons: seq<TerminationReason>)
    ensures AllDistinct(terminated) && forall i :: 0 <= i < |terminated| ==> fresh(terminated[i])
    ensures Records(terminated, AllEntries(pod, sts))
    ensures failed == WithReason(terminated, AllEntries(pod, sts))
    ensures reasons == given + ClassReasons(pod, sts)
    ensures FromStates(terminated, States(sts), pod.payload.phase)
  {
    terminated, failed, reasons := [], [], given;
    for i := 0 to |sts|
      invariant AllDistinct(terminated) && forall i :: 0 <= i < |terminated| ==> fresh(terminated[i])
      invariant Records(terminated, AllEntries(pod, sts[..i]))
      invariant failed == WithReason(terminated, AllEntries(pod, sts[..i]))
      invariant reasons == given + ClassReasons(pod, sts[..i])
      invariant FromStates(terminated, States(sts[..i]), pod.payload.phase)
    {
      ghost var entries := AllEntries(pod, sts[..i]);
      ghost var before := terminated;
      terminated, failed, reasons := CollectStatus(pod, sts[i], terminated, failed, reasons, entries);
      OneStatusFrom(before, terminated, sts, i, pod.payload.phase);
      OneStatusMore(pod, sts, i);
      ConcatAssociative(given, ClassReasons(pod, sts[..i]), Somes(Entries(pod, sts[i])));
    }
    assert sts[..|sts|] == sts;
  }

  lemma OneStatusMore(pod: Pod, sts: seq<ContainerStatus>, i: nat)
    requires i < |sts|
    ensures AllEntries(pod, sts[..i + 1]) == AllEntries(pod, sts[..i]) + Entries(pod, sts[i])
    ensures ClassReasons(pod, sts[..i + 1]) == ClassReasons(pod, sts[..i]) + Somes(Entries(pod, sts[i]))
  {
    assert sts[..i + 1][..i] == sts[..i];
    SomesConcat(AllEntries(pod, sts[..i]), Entries(pod, sts[i]));
  }

  function ClassReasons(pod: Pod, sts: seq<ContainerStatus>): seq<TerminationReason> {
    Somes(AllEntries(pod, sts))
  }

  // The reasons of a pod: ephemeral, then init, then regular containers, in status order.
  function PodReasons(pod: Pod): seq<TerminationReason> {
    ClassReasons(pod, pod.payload.ephemeral) + ClassReasons(pod, pod.payload.init)
    + ClassReasons(pod, pod.payload.regular)
  }

  datatype TerminatedContainers = TerminatedContainers(
    init: seq<ContainerResponse>,
    ephemeral: seq<ContainerResponse>,
    containers: seq<ContainerResponse>)

  // terminated holds the pod's container responses, class by class, and failed the objects
  // among them that carry a reason.
  ghost predicate Classified(pod: Pod, terminated: TerminatedContainers, failed: TerminatedContainers)
    reads terminated.init, terminated.ephemeral, terminated.containers
  {
    && Records(terminated.ephemeral, AllEntries(pod, pod.payload.ephemeral))
    && Records(terminated.init, AllEntries(pod, pod.payload.init))
    && Records(terminated.containers, AllEntries(pod, pod.payload.regular))
    && failed.ephemeral == WithReason(terminated.ephemeral, AllEntries(pod, pod.payload.ephemeral))
    && failed.init == WithReason(terminated.init, AllEntries(pod, pod.payload.init))
    && failed.containers == WithReason(terminated.containers, AllEntries(pod, pod.payload.regular))
  }

  // What one class contributes.
  ghost predicate Collected(pod: Pod, sts: seq<ContainerStatus>, terminated: seq<ContainerResponse>, failed: seq<ContainerResponse>)
    reads terminated, failed
  {
    && ShowsAll(terminated, pod, States(sts))
    && KeepsFailing(terminated, failed)
    && Reported(failed, ClassReasons(pod, sts))
  }

  lemma ClassIsCollected(pod: Pod, sts: seq<ContainerStatus>, terminated: seq<ContainerResponse>, failed: seq<ContainerResponse>)
    requires Records(terminated, AllEntries(pod, sts)) && FromStates(terminated, States(sts), pod.payload.phase)
    requires failed == WithReason(terminated, AllEntries(pod, sts))
    ensures Collected(pod, sts, terminated, failed)
  {
    RecordsShowStates(terminated, pod, sts);
    WithReasonKeeps(terminated, AllEntries(pod, sts));
  }

  lemma ReportedBoth(f: seq<ContainerResponse>, g: seq<ContainerResponse>, a: seq<TerminationReason>, b: seq<TerminationReason>)
    requires Reported(f, a) && Reported(g, b)
    ensures Reported(f + g, a + b)
  {
  }

  method TerminatedAndFailedContainersResponses(pod: Pod)
    returns (terminated: TerminatedContainers, failed: TerminatedContainers, reasons: seq<TerminationReason>)
    ensures Classified(pod, terminated, failed)
    ensures Collected(pod, pod.payload.ephemeral, terminated.ephemeral, failed.ephemeral)
    ensures Collected(pod, pod.payload.init, terminated.init, failed.init)
    ensures Collected(pod, pod.payload.regular, terminated.containers, failed.containers)
    ensures Reported(failed.ephemeral + failed.init + failed.containers, reasons)
    ensures reasons == PodReasons(pod)
  {
    terminated, failed, reasons := CollectClasses(pod);
    ClassIsCollected(pod, pod.payload.ephemeral, terminated.ephemeral, failed.ephemeral);
    ClassIsCollected(pod, pod.payload.init, terminated.init, failed.init);
    ClassIsCollected(pod, pod.payload.regular, terminated.containers, failed.containers);
    AllReported(pod, failed);
  }

  lemma AllReported(pod: Pod, failed: TerminatedContainers)
    requires Reported(failed.ephemeral, ClassReasons(pod, pod.payload.ephemeral))
    requires Reported(failed.init, ClassReasons(pod, pod.payload.init))
    requires Reported(failed.containers, ClassReasons(pod, pod.payload.regular))
    ensures Reported(failed.ephemeral + failed.init + failed.containers, PodReasons(pod))
  {
    var e, i, c := pod.payload.ephemeral, pod.payload.init, pod.payload.regular;
    ReportedBoth(failed.ephemeral, failed.init, ClassReasons(pod, e), ClassReasons(pod, i));
    ReportedBoth(failed.ephemeral + failed.init, failed.containers, ClassReasons(pod, e) + ClassReasons(pod, i), ClassReasons(pod, c));
  }

  // The three calls, one reasons slice threaded through them.
  method CollectClasses(pod: Pod)
    returns (terminated: TerminatedContainers, failed: TerminatedContainers, reasons: seq<TerminationReason>)
    ensures Classified(pod, terminated, failed)
    ensures FromStates(terminated.ephemeral, States(pod.payload.ephemeral), pod.payload.phase)
    ensures FromStates(terminated.init, States(pod.payload.init), pod.payload.phase)
    ensures FromStates(terminated.containers, States(pod.payload.regular), pod.payload.phase)
    ensures reasons == PodReasons(pod)
  {
    var te, fe, re := CollectTerminatedAndFailedContainers(pod, pod.payload.ephemeral, []);
    var ti, fi, ri := CollectTerminatedAndFailedContainers(pod, pod.payload.init, re);
    var tc, fc, rc := CollectTerminatedAndFailedContainers(pod, pod.payload.regular, ri);
    assert re == ClassReasons(pod, pod.payload.ephemeral);
    terminated := TerminatedContainers(ti, te, tc);
    failed := TerminatedContainers(fi, fe, fc);
    reasons := rc;
  }

  // ---------- finish time ----------

  // The time buildJobPodsResponses takes from an entry, if any.
  function FinishTime(e: Option<TerminationReason>): Option<Time> {
    if e.None? || e.value.details.finishedAt == "" then None
    else match Parse(e.value.details.finishedAt)
      case Some(t) => if IsZero(t) then None else Some(t)
      case None => None
  }

  function FinishTimes(entries: seq<Option<TerminationReason>>): seq<Time> { Somes(Map(FinishTime, entries)) }

  function Second(t: Time): int { t.sec }

  // text prints a latest of the times, or is empty when there are none.
  ghost predicate PrintsLatest(times: seq<Time>, text: string) {
    if times == [] then text == ""
    else text != "" && exists t :: t in times && text == TimeToString(Some(t)) && forall u | u in times :: u.sec <= t.sec
  }

  lemma ParsedTimesAreWhole(entries: seq<Option<TerminationReason>>)
    ensures forall t | t in FinishTimes(entries) :: !IsZero(t)
  {
    SomesMembers(Map(FinishTime, entries));
  }

  lemma {:induction false} SomesMembers<T>(s: seq<Option<T>>)
    ensures forall x: T | x in Somes(s) :: Some(x) in s
    ensures forall i :: 0 <= i < |s| && s[i].Some? ==> s[i].value in Somes(s)
  {
    if s != [] {
      SomesMembers(s[..|s| - 1]);
    }
  }

  method LatestFinish(containers: seq<ContainerResponse>, ghost entries: seq<Option<TerminationReason>>)
    returns (text: string)
    requires Records(containers, entries)
    ensures PrintsLatest(FinishTimes(entries), text)
  {
    var times := [];
    for i := 0 to |containers|
      invariant times == FinishTimes(entries[..i])
    {
      assert Map(FinishTime, entries[..i + 1]) == Map(FinishTime, entries[..i]) + [FinishTime(entries[i])];
      SomesAppend(Map(FinishTime, entries[..i]), FinishTime(entries[i]));
      var reason := containers[i].terminatedReason;
      if reason.Some? && reason.value.details.finishedAt != "" {
        var t := Parse(reason.value.details.finishedAt);
        if t.Some? && !IsZero(t.value) {
          times := times + [t.value];
        }
      }
    }
    assert entries[..|entries|] == entries;
    text := "";
    if |times| > 0 {
      var sorted := SortFunc(times, Second, IntLeq);
      LastIsLatest(times, sorted);
      ParsedTimesAreWhole(entries);
      FormatIsNotEmpty(sorted[|sorted| - 1]);
      text := TimeToString(Some(sorted[|sorted| - 1]));
    }
  }

  lemma LastIsLatest(times: seq<Time>, sorted: seq<Time>)
    requires times != [] && SortedPermutation(times, sorted, Second, IntLeq)
    ensures sorted != [] && sorted[|sorted| - 1] in times
    ensures forall u | u in times :: u.sec <= sorted[|sorted| - 1].sec
  {
    assert |multiset(sorted)| == |multiset(times)|;
    var last := sorted[|sorted| - 1];
    assert last in multiset(times);
    forall u | u in times ensures u.sec <= last.sec {
      assert u in multiset(sorted);
      var i :| 0 <= i < |sorted| && sorted[i] == u;
      assert i < |sorted| - 1 ==> IntLeq(Map(Second, sorted)[i], Map(Second, sorted)[|sorted| - 1]);
    }
  }

  ghost predicate IsPodResponse(pod: Pod, r: PodResponse) {
    && r.name == pod.meta.name && r.phase == pod.payload.phase
    && r.startTime == TimeToString(pod.payload.startTime)
    && r.reasons == PodReasons(pod)
    && r.failed == (PodReasons(pod) != [])
    && PrintsLatest(FinishTimes(AllEntries(pod, pod.payload.regular)), r.finishedAt)
  }

  method BuildPodResponse(pod: Pod) returns (r: PodResponse)
    ensures IsPodResponse(pod, r)
  {
    var terminated, failed, reasons := TerminatedAndFailedContainersResponses(pod);
    var finishedAt := LatestFinish(terminated.containers, AllEntries(pod, pod.payload.regular));
    r := PodResponse(pod.meta.name, pod.payload.phase, TimeToString(pod.payload.startTime),
                     |reasons| > 0, reasons, finishedAt);
  }

  // One response per pod, in order.
  ghost predicate ArePodResponses(pods: seq<Pod>, rs: seq<PodResponse>) {
    |rs| == |pods| && forall i :: 0 <= i < |pods| ==> IsPodResponse(pods[i], rs[i])
  }

  lemma OneMorePod(pods: seq<Pod>, rs: seq<PodResponse>, pod: Pod, r: PodResponse)
    requires ArePodResponses(pods, rs) && IsPodResponse(pod, r)
    ensures ArePodResponses(pods + [pod], rs + [r])
  {
  }

  method BuildJobPodsResponses(pods: seq<Pod>) returns (rs: seq<PodResponse>)
    ensures ArePodResponses(pods, rs)
  {
    rs := [];
    for i := 0 to |pods|
      invariant ArePodResponses(pods[..i], rs)
    {
      var r := BuildPodResponse(pods[i]);
      OneMorePod(pods[..i], rs, pods[i], r);
      assert pods[..i + 1] == pods[..i] + [pods[i]];
      rs := rs + [r];
    }
    assert pods[..|pods|] == pods;
  }

  // ---------- what it means ----------

  predicate Failing(st: ContainerStatus) {
    || (st.waiting.Some? && st.waiting.value.reason == "CreateContainerConfigError")
    || (st.terminated.Some? && st.terminated.value.reason == "Error")
  }

  predicate HasFailingContainer(pod: Pod) {
    exists st :: st in pod.payload.ephemeral + pod.payload.init + pod.payload.regular && Failing(st)
  }

  lemma {:induction false} ReasonsOfClass(pod: Pod, sts: seq<ContainerStatus>)
    ensures ClassReasons(pod, sts) != [] <==> exists st :: st in sts && Failing(st)
  {
    if sts != [] {
      var front, last := sts[..|sts| - 1], sts[|sts| - 1];
      ReasonsOfClass(pod, front);
      SomesConcat(AllEntries(pod, front), Entries(pod, last));
      assert sts == front + [last];
      OneStatus(pod, last);
    }
  }

  lemma OneStatus(pod: Pod, st: ContainerStatus)
    ensures Somes(Entries(pod, st)) != [] <==> Failing(st)
  {
    var a, b := WaitingEntry(pod, st), TerminatedEntry(st);
    SomesConcat(a, b);
    if st.waiting.Some? { SomesOfOne(WaitingReason(pod, st)); }
    if st.terminated.Some? { SomesOfOne(TerminatedReason(st)); }
  }

  // A pod response is failed if and only if one of the pod's containers, of any class, waits on
  // a configuration error or terminated with an error.
  lemma PodFailedIff(pod: Pod, r: PodResponse)
    requires IsPodResponse(pod, r)
    ensures r.failed <==> HasFailingContainer(pod)
  {
    ReasonsOfClass(pod, pod.payload.ephemeral);
    ReasonsOfClass(pod, pod.payload.init);
    ReasonsOfClass(pod, pod.payload.regular);
  }

  // The finish times of one status, read off the Kubernetes object: the pod's start time for a
  // configuration error, the container's own finish time for an error; unset and zero times
  // do not count.
  function OwnFinishTimes(pod: Pod, st: ContainerStatus): seq<Time> {
    (if st.waiting.Some? && st.waiting.value.reason == "CreateContainerConfigError" then Countable(pod.payload.startTime) else [])
    + (if st.terminated.Some? && st.terminated.value.reason == "Error"
       then Countable(Some(st.terminated.value.finishedAt)) else [])
  }

  function Countable(t: Option<Time>): seq<Time> {
    if t.Some? && t.value.sec != ZERO_TIME.sec then [Truncate(t.value)] else []
  }

  function AllFinishTimes(pod: Pod, sts: seq<ContainerStatus>): seq<Time> {
    if sts == [] then [] else AllFinishTimes(pod, sts[..|sts| - 1]) + OwnFinishTimes(pod, sts[|sts| - 1])
  }

  ghost predicate WritableTimes(pod: Pod, sts: seq<ContainerStatus>) {
    && Writable(pod.payload.startTime)
    && forall st | st in sts :: st.terminated.Some? ==> FourDigitYear(st.terminated.value.finishedAt)
  }

  lemma PrintedTimeCounts(t: Option<Time>, name: string, d: TerminationDetails)
    requires Writable(t) && d.finishedAt == TimeToString(t)
    ensures Somes([FinishTime(Some(TerminationReason(name, d)))]) == Countable(t)
  {
    var e := Some(TerminationReason(name, d));
    SomesOfOne(FinishTime(e));
    if !Unset(t) {
      FormatIsNotEmpty(t.value);
      ParsePrinted(t.value);
    }
  }

  lemma NoReasonDoesNotCount()
    ensures Somes([FinishTime(None)]) == []
  {
    SomesOfOne(FinishTime(None));
  }

  lemma WaitingFinishTime(pod: Pod, st: ContainerStatus)
    requires st.waiting.Some? && Writable(pod.payload.startTime)
    ensures Somes([FinishTime(WaitingReason(pod, st))])
         == if st.waiting.value.reason == "CreateContainerConfigError" then Countable(pod.payload.startTime) else []
  {
    NoReasonDoesNotCount();
    if st.waiting.value.reason == "CreateContainerConfigError" {
      PrintedTimeCounts(pod.payload.startTime, st.name, WaitingReason(pod, st).value.details);
    }
  }

  lemma TerminatedFinishTime(st: ContainerStatus)
    requires st.terminated.Some? && FourDigitYear(st.terminated.value.finishedAt)
    ensures Somes([FinishTime(TerminatedReason(st))])
         == if st.terminated.value.reason == "Error" then Countable(Some(st.terminated.value.finishedAt)) else []
  {
    NoReasonDoesNotCount();
    if st.terminated.value.reason == "Error" {
      PrintedTimeCounts(Some(st.terminated.value.finishedAt), st.name, TerminatedReason(st).value.details);
    }
  }

  lemma OneStatusFinishTimes(pod: Pod, st: ContainerStatus)
    requires Writable(pod.payload.startTime)
    requires st.terminated.Some? ==> FourDigitYear(st.terminated.value.finishedAt)
    ensures FinishTimes(Entries(pod, st)) == OwnFinishTimes(pod, st)
  {
    var a, b := WaitingEntry(pod, st), TerminatedEntry(st);
    MapConcat(FinishTime, a, b);
    SomesConcat(Map(FinishTime, a), Map(FinishTime, b));
    if st.waiting.Some? {
      assert Map(FinishTime, a) == [FinishTime(WaitingReason(pod, st))];
      WaitingFinishTime(pod, st);
    }
    if st.terminated.Some? {
      assert Map(FinishTime, b) == [FinishTime(TerminatedReason(st))];
      TerminatedFinishTime(st);
    }
  }

  // Printing and parsing loses nothing but fractions: the times collected for a class are those
  // of its failing containers.
  lemma {:induction false} FinishTimesAreOwn(pod: Pod, sts: seq<ContainerStatus>)
    requires WritableTimes(pod, sts)
    ensures FinishTimes(AllEntries(pod, sts)) == AllFinishTimes(pod, sts)
  {
    if sts != [] {
      var front, last := sts[..|sts| - 1], sts[|sts| - 1];
      FinishTimesAreOwn(pod, front);
      OneStatusFinishTimes(pod, last);
      MapConcat(FinishTime, AllEntries(pod, front), Entries(pod, last));
      SomesConcat(Map(FinishTime, AllEntries(pod, front)), Map(FinishTime, Entries(pod, last)));
    }
  }

  // FinishedAt is the text of the latest finish time over the failing regular containers, and
  // is empty if and only if none of them has one.
  lemma FinishedAtIsLatest(pod: Pod, r: PodResponse)
    requires IsPodResponse(pod, r) && WritableTimes(pod, pod.payload.regular)
    ensures PrintsLatest(AllFinishTimes(pod, pod.payload.regular), r.finishedAt)
    ensures r.finishedAt == "" <==> AllFinishTimes(pod, pod.payload.regular) == []
  {
    FinishTimesAreOwn(pod, pod.payload.regular);
  }

  // Whichever of several latest times the sort puts last, the text is the same: a pod has one
  // response.
  lemma PodResponseIsDetermined(pod: Pod, r1: PodResponse, r2: PodResponse)
    requires IsPodResponse(pod, r1) && IsPodResponse(pod, r2)
    ensures r1 == r2
  {
    var times := FinishTimes(AllEntries(pod, pod.payload.regular));
    if times != [] {
      var t :| t in times && r1.finishedAt == TimeToString(Some(t)) && forall u | u in times :: u.sec <= t.sec;
      var u :| u in times && r2.finishedAt == TimeToString(Some(u)) && forall v | v in times :: v.sec <= u.sec;
      assert t.sec == u.sec;
    }
  }

  lemma PodResponsesAreDetermined(pods: seq<Pod>, a: seq<PodResponse>, b: seq<PodResponse>)
    requires ArePodResponses(pods, a) && ArePodResponses(pods, b)
    ensures a == b
  {
    forall i | 0 <= i < |pods| ensures a[i] == b[i] {
      PodResponseIsDetermined(pods[i], a[i], b[i]);
    }
  }

  // ---------- the reasons of a pod response ----------

  lemma {:induction false} StatesConcat(a: seq<ContainerStatus>, b: seq<ContainerStatus>)
    ensures States(a + b) == States(a) + States(b)
  {
    if b == [] {
      assert a + b == a;
    } else {
      var front, last := b[..|b| - 1], b[|b| - 1];
      assert (a + b)[..|a + b| - 1] == a + front;
      StatesConcat(a, front);
      ConcatAssociative(States(a), States(front), StatesOf(last));
    }
  }

  // reasons explains, in order, the failing ones of the states.
  ghost predicate ExplainsFailing(reasons: seq<TerminationReason>, pod: Pod, states: seq<ContainerState>) {
    var failing := Filter(FailingState, states);
    |reasons| == |failing| && forall k :: 0 <= k < |failing| ==> Explains(reasons[k], pod, failing[k])
  }

  lemma {:induction false} FittingEntriesExplain(entries: seq<Option<TerminationReason>>, pod: Pod, states: seq<ContainerState>)
    requires |entries| == |states| && forall i :: 0 <= i < |states| ==> EntryFits(entries[i], pod, states[i])
    ensures ExplainsFailing(Somes(entries), pod, states)
  {
    if states != [] {
      var last := |states| - 1;
      FittingEntriesExplain(entries[..last], pod, states[..last]);
      assert states == states[..last] + [states[last]];
      FilterAppend(FailingState, states[..last], states[last]);
    }
  }

  lemma ExplainsBoth(a: seq<TerminationReason>, b: seq<TerminationReason>, pod: Pod, s: seq<ContainerState>, t: seq<ContainerState>)
    requires ExplainsFailing(a, pod, s) && ExplainsFailing(b, pod, t)
    ensures ExplainsFailing(a + b, pod, s + t)
  {
    FilterConcat(FailingState, s, t);
  }

  lemma ClassExplains(pod: Pod, sts: seq<ContainerStatus>)
    ensures ExplainsFailing(ClassReasons(pod, sts), pod, States(sts))
  {
    EntriesOfStates(pod, sts);
    FittingEntriesExplain(AllEntries(pod, sts), pod, States(sts));
  }

  // The reasons of a pod response explain, field by field, the failing states of the ephemeral,
  // then the init, then the regular containers, in status order.
  lemma ReasonsExplainFailures(pod: Pod, r: PodResponse)
    requires IsPodResponse(pod, r)
    ensures ExplainsFailing(r.reasons, pod, States(pod.payload.ephemeral + pod.payload.init + pod.payload.regular))
    ensures r.name == pod.meta.name && r.phase == pod.payload.phase
  {
    var e, i, c := pod.payload.ephemeral, pod.payload.init, pod.payload.regular;
    ClassExplains(pod, e);
    ClassExplains(pod, i);
    ClassExplains(pod, c);
    StatesConcat(e, i);
    StatesConcat(e + i, c);
    ExplainsBoth(ClassReasons(pod, e), ClassReasons(pod, i), pod, States(e), States(i));
    ExplainsBoth(ClassReasons(pod, e) + ClassReasons(pod, i), ClassReasons(pod, c), pod, States(e) + States(i), States(c));
  }
}
