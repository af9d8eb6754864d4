// Staleness and call rate of GetAndStore over whole runs of the shared store: collectors and
// any number of polling streams, in any order, under a clock that never goes back.
module TtlCache {
  import opened Common
  import opened Store

  predicate Clocked(steps: seq<Step>) {
    forall i, j :: 0 <= i < j < |steps| ==> steps[i].now <= steps[j].now
  }

  // The store before step i of the run.
  function StateAt(m: Entries, steps: seq<Step>, i: nat): Entries
    requires i <= |steps|
  {
    RunSteps(m, steps[..i])
  }

  lemma NextState(m: Entries, steps: seq<Step>, i: nat)
    requires i < |steps|
    ensures StateAt(m, steps, i + 1) == After(StateAt(m, steps, i), steps[i])
  {
    assert steps[..i + 1] == steps[..i] + [steps[i]];
    RunOneMore(m, steps[..i], steps[i]);
  }

  // Only lookups touch the key.
  ghost predicate LookupKey(key: string) {
    forall s: Step :: StepKey(s) == key ==> s.LookupStep?
  }

  // No collector writes under the key of a lookup, whatever the namespace and name asked for.
  lemma TargetKeysAreLookupKeys(t: LookupTarget)
    ensures LookupKey(TargetKey(t))
  {
    forall s: Step | StepKey(s) == TargetKey(t) ensures s.LookupStep? {
      OwnersOfFixedKeys(s);
    }
  }

  // Step i called the API for this key and the call succeeded.
  predicate Refreshes(m: Entries, steps: seq<Step>, i: nat, key: string)
    requires i < |steps|
  {
    StepKey(steps[i]) == key && CallsApi(StateAt(m, steps, i), steps[i]) && steps[i].api.Ok?
  }

  function RefreshesAt(m: Entries, steps: seq<Step>, key: string): nat -> bool {
    (i: nat) => i < |steps| && Refreshes(m, steps, i, key)
  }

  function LastRefresh(m: Entries, steps: seq<Step>, n: nat, key: string): (r: Option<nat>)
    requires n <= |steps|
    ensures r.Some? ==> r.value < n && Refreshes(m, steps, r.value, key)
  {
    LastWhere(RefreshesAt(m, steps, key), n)
  }

  lemma LastRefreshIsLast(m: Entries, steps: seq<Step>, n: nat, key: string, i: nat)
    requires i < n <= |steps| && Refreshes(m, steps, i, key)
    ensures LastRefresh(m, steps, n, key).Some? && i <= LastRefresh(m, steps, n, key).value
  {
    LastWhereIsLast(RefreshesAt(m, steps, key), n, i);
  }

  // The entry a refresh leaves.
  function EntryOf(s: Step): Entry
    requires s.LookupStep? && s.api.Ok?
  {
    Entry(s.api.value, Some(s.now + TTL))
  }

  lemma OneStepAtKey(m: Entries, s: Step, key: string)
    requires LookupKey(key)
    ensures At(After(m, s), key) ==
      if StepKey(s) == key && CallsApi(m, s) && s.api.Ok? then Some(EntryOf(s)) else At(m, key)
  {
    if StepKey(s) == key {
      assert s.LookupStep?;
    }
  }

  // Between the collectors and the streams, a lookup key always holds the last refresh.
  lemma {:induction false} CacheHoldsLastRefresh(m: Entries, steps: seq<Step>, n: nat, key: string)
    requires n <= |steps| && LookupKey(key)
    ensures At(StateAt(m, steps, n), key) ==
      match LastRefresh(m, steps, n, key)
      case None => At(m, key)
      case Some(j) => Some(EntryOf(steps[j]))
  {
    if n > 0 {
      CacheHoldsLastRefresh(m, steps, n - 1, key);
      NextState(m, steps, n - 1);
      OneStepAtKey(StateAt(m, steps, n - 1), steps[n - 1], key);
    }
  }

  // Every value handed out at time t was stored by a refresh at some s with t < s + 15, the
  // latest refresh before it, or is an unexpired entry the store began with.
  lemma ReturnedValuesAreFresh(m: Entries, steps: seq<Step>, i: nat, key: string)
    requires i < |steps| && Clocked(steps) && LookupKey(key)
    requires StepKey(steps[i]) == key && steps[i].LookupStep?
    requires Reply(StateAt(m, steps, i), steps[i]).Ok?
    ensures var v := Reply(StateAt(m, steps, i), steps[i]).value;
      match LastRefresh(m, steps, i + 1, key)
      case Some(j) => v == steps[j].api.value && steps[j].now <= steps[i].now < steps[j].now + 15
      case None => At(m, key).Some? && v == m[key].value && Live(m[key], steps[i].now)
  {
    CacheHoldsLastRefresh(m, steps, i, key);
  }

  // Successful calls for one key are at least 15 seconds apart.
  lemma RefreshesAreSpaced(m: Entries, steps: seq<Step>, i: nat, j: nat, key: string)
    requires i < j < |steps| && Clocked(steps) && LookupKey(key)
    requires Refreshes(m, steps, i, key) && Refreshes(m, steps, j, key)
    ensures steps[j].now >= steps[i].now + 15
  {
    CacheHoldsLastRefresh(m, steps, j, key);
    LastRefreshIsLast(m, steps, j, key, i);
    var l := LastRefresh(m, steps, j, key).value;
    assert i < l ==> steps[i].now <= steps[l].now;
  }

  predicate RefreshedSince(m: Entries, steps: seq<Step>, i: nat, key: string, j: nat)
    requires j < i < |steps|
  {
    Refreshes(m, steps, j, key) && steps[i].now < steps[j].now + 15
  }

  lemma EntryIsLiveIff(m: Entries, steps: seq<Step>, i: nat, key: string)
    requires i < |steps| && LookupKey(key)
    requires StepKey(steps[i]) == key && steps[i].LookupStep? && !steps[i].fault
    ensures CallsApi(StateAt(m, steps, i), steps[i]) <==>
      match LastRefresh(m, steps, i, key)
      case Some(j) => steps[i].now >= steps[j].now + TTL
      case None => !(key in m && Live(m[key], steps[i].now))
  {
    CacheHoldsLastRefresh(m, steps, i, key);
  }

  lemma RecentRefreshIsLast(m: Entries, steps: seq<Step>, i: nat, key: string, j: nat)
    requires Clocked(steps) && j < i < |steps| && RefreshedSince(m, steps, i, key, j)
    ensures var last := LastRefresh(m, steps, i, key);
      last.Some? && steps[i].now < steps[last.value].now + TTL
  {
    LastRefreshIsLast(m, steps, i, key, j);
    var last := LastRefresh(m, steps, i, key).value;
    assert j < last ==> steps[j].now <= steps[last].now;
  }

  // While the entry the store began with is live, nothing is refreshed.
  lemma {:induction false} InitialEntryStays(m: Entries, steps: seq<Step>, i: nat, n: nat, key: string)
    requires n <= i < |steps| && Clocked(steps) && LookupKey(key)
    requires key in m && Live(m[key], steps[i].now)
    ensures At(StateAt(m, steps, n), key) == Some(m[key]) && LastRefresh(m, steps, n, key).None?
  {
    if n > 0 {
      InitialEntryStays(m, steps, i, n - 1, key);
      NextState(m, steps, n - 1);
      OneStepAtKey(StateAt(m, steps, n - 1), steps[n - 1], key);
      assert steps[n - 1].now <= steps[i].now;
    }
  }

  // A lookup calls the API if and only if no call succeeded in the last 15 seconds and the entry
  // the store began with, if any, has expired.
  lemma CallsApiIff(m: Entries, steps: seq<Step>, i: nat, key: string)
    requires i < |steps| && Clocked(steps) && LookupKey(key)
    requires StepKey(steps[i]) == key && steps[i].LookupStep? && !steps[i].fault
    ensures CallsApi(StateAt(m, steps, i), steps[i]) <==>
      && !(exists j :: 0 <= j < i && RefreshedSince(m, steps, i, key, j))
      && !(key in m && Live(m[key], steps[i].now))
  {
    EntryIsLiveIff(m, steps, i, key);
    if key in m && Live(m[key], steps[i].now) {
      InitialEntryStays(m, steps, i, i, key);
    } else if j :| 0 <= j < i && RefreshedSince(m, steps, i, key, j) {
      RecentRefreshIsLast(m, steps, i, key, j);
    } else {
      var last := LastRefresh(m, steps, i, key);
      assert last.Some? ==> !RefreshedSince(m, steps, i, key, last.value);
    }
  }

  // What every lookup hands back: the answer of the last successful call while it is younger than
  // 15 seconds, an initial entry that has not expired, else the answer of the call it makes.  It
  // fails if and only if it makes a call and the call fails, or the Get itself fails.
  lemma RepliesAre(m: Entries, steps: seq<Step>, i: nat, key: string)
    requires i < |steps| && Clocked(steps) && LookupKey(key)
    requires StepKey(steps[i]) == key && steps[i].LookupStep?
    ensures var reply, s, last := Reply(StateAt(m, steps, i), steps[i]), steps[i], LastRefresh(m, steps, i, key);
      && (s.fault ==> reply.Err?)
      && (!s.fault && last.Some? && s.now < steps[last.value].now + 15 ==> reply == Ok(steps[last.value].api.value))
      && (!s.fault && last.Some? && s.now >= steps[last.value].now + 15 ==> reply == s.api)
      && (!s.fault && last.None? && key in m && (m[key].expiry.None? || s.now < m[key].expiry.value) ==> reply == Ok(m[key].value))
      && (!s.fault && last.None? && (key in m ==> m[key].expiry.Some? && s.now >= m[key].expiry.value) ==> reply == s.api)
      && (!s.fault ==> (reply.Err? <==> CallsApi(StateAt(m, steps, i), s) && s.api.Err?))
  {
    CacheHoldsLastRefresh(m, steps, i, key);
  }

  predicate InWindow(m: Entries, steps: seq<Step>, i: nat, key: string, from: nat, length: nat)
    requires i < |steps|
  {
    Refreshes(m, steps, i, key) && from <= steps[i].now <= from + length
  }

  function RefreshesInWindow(m: Entries, steps: seq<Step>, n: nat, key: string, from: nat, length: nat): nat
    requires n <= |steps|
  {
    if n == 0 then 0
    else RefreshesInWindow(m, steps, n - 1, key, from, length) + if InWindow(m, steps, n - 1, key, from, length) then 1 else 0
  }

  lemma {:induction false} WindowIsSpaced(m: Entries, steps: seq<Step>, n: nat, key: string, from: nat, length: nat)
    returns (last: nat)
    requires n <= |steps| && Clocked(steps) && LookupKey(key)
    requires RefreshesInWindow(m, steps, n, key, from, length) > 0
    ensures last < n && InWindow(m, steps, last, key, from, length)
    ensures steps[last].now >= from + TTL * (RefreshesInWindow(m, steps, n, key, from, length) - 1)
  {
    if InWindow(m, steps, n - 1, key, from, length) {
      last := n - 1;
      if RefreshesInWindow(m, steps, n - 1, key, from, length) > 0 {
        var previous := WindowIsSpaced(m, steps, n - 1, key, from, length);
        RefreshesAreSpaced(m, steps, previous, last, key);
      }
    } else {
      last := WindowIsSpaced(m, steps, n - 1, key, from, length);
    }
  }

  // However many streams poll, a window of T seconds holds at most T/15 + 1 successful calls.
  lemma CallRateIsBounded(m: Entries, steps: seq<Step>, key: string, from: nat, length: nat)
    requires Clocked(steps) && LookupKey(key)
    ensures RefreshesInWindow(m, steps, |steps|, key, from, length) <= length / 15 + 1
  {
    if RefreshesInWindow(m, steps, |steps|, key, from, length) > 0 {
      var last := WindowIsSpaced(m, steps, |steps|, key, from, length);
    }
  }
}
