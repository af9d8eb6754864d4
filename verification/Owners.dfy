// The owner index of FindJobsMapped and the unowned jobs of GetJobs.  A bucket holds pointers
// into the decoded list, modelled as indices into it.
module Owners {
  import opened Common
  import opened Objects

  function Hit(x: string, o: string): nat { if x == o then 1 else 0 }

  // How many of the owner references carry this name.
  function References(owners: seq<string>, o: string): nat {
    Sum(ColumnOf(Hit, o), owners)
  }

  function JobReferences(j: Job, o: string): nat { References(j.meta.owners, o) }

  function Repeat<T>(x: T, n: nat): seq<T> {
    if n == 0 then [] else Repeat(x, n - 1) + [x]
  }

  // The bucket of o: each job, in list order, once per owner reference named o.
  function Bucket(jobs: seq<Job>, o: string): seq<nat> {
    if jobs == [] then [] else
      var last := |jobs| - 1;
      Bucket(jobs[..last], o) + Repeat<nat>(last, References(jobs[last].meta.owners, o))
  }

  lemma ReferencesGrow(owners: seq<string>, k: nat, o: string)
    requires k < |owners|
    ensures References(owners[..k + 1], o) == References(owners[..k], o) + (if owners[k] == o then 1 else 0)
  {
    assert owners[..k + 1] == owners[..k] + [owners[k]];
    SumConcat(ColumnOf(Hit, o), owners[..k], [owners[k]]);
    assert [owners[k]][1..] == [];
  }

  // The bucket of o while the first k references of job i are being indexed.
  function PartialBucket(jobs: seq<Job>, i: nat, k: nat, o: string): seq<nat>
    requires i < |jobs| && k <= |jobs[i].meta.owners|
  {
    Bucket(jobs[..i], o) + Repeat<nat>(i, References(jobs[i].meta.owners[..k], o))
  }

  lemma IndexOneReference(jobs: seq<Job>, i: nat, k: nat, o: string)
    requires i < |jobs| && k < |jobs[i].meta.owners|
    ensures PartialBucket(jobs, i, k + 1, o)
         == PartialBucket(jobs, i, k, o) + (if jobs[i].meta.owners[k] == o then [i] else [])
  {
    ReferencesGrow(jobs[i].meta.owners, k, o);
  }

  // The entries of the map are the non-empty ones of these buckets.
  ghost predicate Indexes(mapped: map<string, seq<nat>>, bucket: string -> seq<nat>) {
    forall o :: (o in mapped <==> bucket(o) != []) && (o in mapped ==> mapped[o] == bucket(o))
  }

  function BucketsOf(jobs: seq<Job>): string -> seq<nat> { (o: string) => Bucket(jobs, o) }

  function PartialBuckets(jobs: seq<Job>, i: nat, k: nat): string -> seq<nat>
    requires i < |jobs| && k <= |jobs[i].meta.owners|
  {
    (o: string) => PartialBucket(jobs, i, k, o)
  }

  // The inner loop of FindJobsMapped: one job's owner references.
  method IndexJob(jobs: seq<Job>, i: nat, given: map<string, seq<nat>>) returns (mapped: map<string, seq<nat>>)
    requires i < |jobs| && Indexes(given, BucketsOf(jobs[..i]))
    ensures Indexes(mapped, BucketsOf(jobs[..i + 1]))
  {
    var owners := jobs[i].meta.owners;
    mapped := given;
    assert owners[..0] == [];
    for k := 0 to |owners|
      invariant Indexes(mapped, PartialBuckets(jobs, i, k))
    {
      forall o ensures PartialBucket(jobs, i, k + 1, o)
                    == PartialBucket(jobs, i, k, o) + (if owners[k] == o then [i] else []) {
        IndexOneReference(jobs, i, k, o);
      }
      mapped := mapped[owners[k] := (if owners[k] in mapped then mapped[owners[k]] else []) + [i]];
    }
    forall o ensures PartialBucket(jobs, i, |owners|, o) == Bucket(jobs[..i + 1], o) {
      assert owners[..|owners|] == owners;
      assert jobs[..i + 1][..i] == jobs[..i];
    }
  }

  // jobsForCronjob
  function JobsForCronjob(mapped: map<string, seq<nat>>, cronjob: string): seq<nat> {
    if cronjob in mapped then mapped[cronjob] else []
  }

  // FindJobsMapped on the decoded list.
  method IndexByOwner(jobs: seq<Job>) returns (mapped: map<string, seq<nat>>)
    ensures forall o :: o in mapped <==> Bucket(jobs, o) != []
    ensures IsIndex(mapped, jobs)
  {
    mapped := map[];
    for i := 0 to |jobs|
      invariant Indexes(mapped, BucketsOf(jobs[..i]))
    {
      mapped := IndexJob(jobs, i, mapped);
    }
    assert jobs[..|jobs|] == jobs;
    forall o ensures (o in mapped <==> Bucket(jobs, o) != []) && JobsForCronjob(mapped, o) == Bucket(jobs, o) {
      assert BucketsOf(jobs)(o) == Bucket(jobs, o);
    }
  }

  // ---------- what the index conserves ----------

  lemma {:induction false} RepeatContents(i: nat, n: nat)
    ensures |Repeat<nat>(i, n)| == n
    ensures forall x: nat :: multiset(Repeat<nat>(i, n))[x] == if x == i then n else 0
  {
    if n > 0 { RepeatContents(i, n - 1); }
  }

  lemma {:induction false} RepeatElements<T>(x: T, n: nat)
    ensures |Repeat(x, n)| == n && forall k :: 0 <= k < n ==> Repeat(x, n)[k] == x
  {
    if n > 0 { RepeatElements(x, n - 1); }
  }

  // The jobs the bucket of o points at.
  function OwnedJobs(jobs: seq<Job>, o: string): seq<Job> {
    if jobs == [] then [] else
      var last := |jobs| - 1;
      OwnedJobs(jobs[..last], o) + Repeat(jobs[last], References(jobs[last].meta.owners, o))
  }

  // The index points, in order, at the jobs that name the owner.
  lemma {:induction false} BucketPointsAtOwnedJobs(jobs: seq<Job>, o: string)
    ensures |OwnedJobs(jobs, o)| == |Bucket(jobs, o)|
    ensures forall k :: 0 <= k < |Bucket(jobs, o)| ==>
      Bucket(jobs, o)[k] < |jobs| && OwnedJobs(jobs, o)[k] == jobs[Bucket(jobs, o)[k]]
  {
    if jobs != [] {
      var last := |jobs| - 1;
      var n := References(jobs[last].meta.owners, o);
      BucketPointsAtOwnedJobs(jobs[..last], o);
      RepeatElements<nat>(last, n);
      RepeatElements(jobs[last], n);
    }
  }

  // What IndexByOwner returns for the list.
  ghost predicate IsIndex(mapped: map<string, seq<nat>>, jobs: seq<Job>) {
    forall o :: JobsForCronjob(mapped, o) == Bucket(jobs, o)
  }

  // A job is in the bucket of o exactly as often as it names o, and buckets are in list order.
  lemma {:induction false} BucketContents(jobs: seq<Job>, o: string)
    ensures forall i :: 0 <= i < |jobs| ==> multiset(Bucket(jobs, o))[i] == References(jobs[i].meta.owners, o)
    ensures forall i | i in Bucket(jobs, o) :: i < |jobs|
    ensures forall a, b :: 0 <= a < b < |Bucket(jobs, o)| ==> Bucket(jobs, o)[a] <= Bucket(jobs, o)[b]
  {
    if jobs != [] {
      var last := |jobs| - 1;
      var front, n := jobs[..last], References(jobs[last].meta.owners, o);
      BucketContents(front, o);
      RepeatContents(last, n);
      forall x | x in Repeat<nat>(last, n) ensures x == last {
        assert multiset(Repeat<nat>(last, n))[x] > 0;
      }
      assert last !in Bucket(front, o);
      assert multiset(Bucket(front, o))[last] == 0;
      forall a, b | 0 <= a < b < |Bucket(jobs, o)| ensures Bucket(jobs, o)[a] <= Bucket(jobs, o)[b] {
        var m := |Bucket(front, o)|;
        if a < m <= b {
          assert Bucket(jobs, o)[a] in Bucket(front, o);
        }
        if b >= m { assert Bucket(jobs, o)[b] in Repeat<nat>(last, n); }
        if a >= m { assert Bucket(jobs, o)[a] in Repeat<nat>(last, n); }
      }
    }
  }

  lemma {:induction false} BucketLength(jobs: seq<Job>, o: string)
    ensures |Bucket(jobs, o)| == Sum(ColumnOf(JobReferences, o), jobs)
  {
    if jobs != [] {
      var last := |jobs| - 1;
      BucketLength(jobs[..last], o);
      RepeatContents(last, References(jobs[last].meta.owners, o));
      assert jobs == jobs[..last] + [jobs[last]];
      SumConcat(ColumnOf(JobReferences, o), jobs[..last], [jobs[last]]);
      assert [jobs[last]][1..] == [];
    }
  }

  predicate Distinct(names: seq<string>) { forall i, j :: 0 <= i < j < |names| ==> names[i] != names[j] }

  lemma {:induction false} NameCountsOnce(names: seq<string>, x: string)
    requires Distinct(names)
    ensures References(names, x) == if x in names then 1 else 0
  {
    if names != [] {
      NameCountsOnce(names[1..], x);
      assert names[0] !in names[1..];
      assert ColumnOf(Hit, x)(names[0]) == Hit(names[0], x);
    }
  }

  function ReferencesIn(owners: seq<string>): string -> nat { (o: string) => References(owners, o) }

  // Each reference is counted under exactly one name.
  lemma {:induction false} ReferencesSum(owners: seq<string>, names: seq<string>)
    requires Distinct(names) && forall x | x in owners :: x in names
    ensures Sum(ReferencesIn(owners), names) == |owners|
  {
    if owners == [] {
      SumZero(ReferencesIn(owners), names);
    } else {
      var x, rest := owners[0], owners[1..];
      ReferencesSum(rest, names);
      NameCountsOnce(names, x);
      forall o ensures ReferencesIn(owners)(o) == RowOf(Hit, x)(o) + ReferencesIn(rest)(o) {
        assert ColumnOf(Hit, o)(x) == Hit(x, o);
      }
      SumPointwise(RowOf(Hit, x), ReferencesIn(rest), ReferencesIn(owners), names);
      SumAgree(RowOf(Hit, x), ColumnOf(Hit, x), names);
    }
  }

  function BucketSize(jobs: seq<Job>): string -> nat { (o: string) => |Bucket(jobs, o)| }
  function OwnerCount(j: Job): nat { |j.meta.owners| }

  // The buckets together hold every owner reference of the list exactly once.
  lemma BucketsConserveReferences(jobs: seq<Job>, names: seq<string>)
    requires Distinct(names)
    requires forall j, x | j in jobs && x in j.meta.owners :: x in names
    ensures Sum(BucketSize(jobs), names) == Sum(OwnerCount, jobs)
  {
    forall o ensures |Bucket(jobs, o)| == Sum(ColumnOf(JobReferences, o), jobs) {
      BucketLength(jobs, o);
    }
    SumAgree(BucketSize(jobs), ColumnSums(JobReferences, jobs), names);
    SumExchange(JobReferences, jobs, names);
    forall j | j in jobs ensures Sum(RowOf(JobReferences, j), names) == |j.meta.owners| {
      ReferencesSum(j.meta.owners, names);
      SumAgree(RowOf(JobReferences, j), ReferencesIn(j.meta.owners), names);
    }
    SumAgree(RowSums(JobReferences, names), OwnerCount, jobs);
  }

  // ---------- the jobs of GetJobs ----------

  // GetJobs keeps the jobs without owner references.
  method UnownedJobs(jobs: seq<Job>) returns (kept: seq<nat>)
    ensures forall a, b :: 0 <= a < b < |kept| ==> kept[a] < kept[b]
    ensures forall i: nat :: i in kept <==> i < |jobs| && jobs[i].meta.owners == []
  {
    kept := [];
    for i := 0 to |jobs|
      invariant forall a, b :: 0 <= a < b < |kept| ==> kept[a] < kept[b]
      invariant forall a :: 0 <= a < |kept| ==> kept[a] < i
      invariant forall k: nat :: k in kept <==> k < i && jobs[k].meta.owners == []
    {
      if jobs[i].meta.owners == [] {
        kept := kept + [i];
      }
    }
  }

  // A job is kept or is in some bucket, and never both.
  lemma KeptAndIndexedPartition(jobs: seq<Job>, i: nat)
    requires i < |jobs|
    ensures jobs[i].meta.owners == [] <==> !exists o :: i in Bucket(jobs, o)
  {
    var owners := jobs[i].meta.owners;
    forall o ensures i in Bucket(jobs, o) <==> References(owners, o) > 0 {
      BucketContents(jobs, o);
      assert i in Bucket(jobs, o) <==> i in multiset(Bucket(jobs, o));
    }
    if owners != [] {
      assert ColumnOf(Hit, owners[0])(owners[0]) == 1;
      assert i in Bucket(jobs, owners[0]);
    } else {
      assert forall o :: References(owners, o) == 0;
    }
  }
}
