// Sequences, counting and the one fact about sorting that the Go code may rely on:
// slices.SortFunc returns some sorted permutation, and nothing is promised about ties.
module Common {

  datatype Option<+T> = None | Some(value: T)

  datatype Result<+T> = Ok(value: T) | Err(reason: string)

  function Map<A, B>(f: A -> B, s: seq<A>): (r: seq<B>)
    ensures |r| == |s|
    ensures forall i :: 0 <= i < |s| ==> r[i] == f(s[i])
  {
    seq(|s|, i requires 0 <= i < |s| => f(s[i]))
  }

  function Filter<T>(p: T -> bool, s: seq<T>): (r: seq<T>)
    ensures forall x | x in r :: x in s && p(x)
    ensures forall x | x in s && p(x) :: x in r
    ensures |r| <= |s|
  {
    if s == [] then [] else (if p(s[0]) then [s[0]] else []) + Filter(p, s[1..])
  }

  lemma {:induction false} FilterConcat<T>(p: T -> bool, a: seq<T>, b: seq<T>)
    ensures Filter(p, a + b) == Filter(p, a) + Filter(p, b)
  {
    if a == [] {
      assert a + b == b;
    } else {
      assert (a + b)[1..] == a[1..] + b;
      FilterConcat(p, a[1..], b);
    }
  }

  lemma FilterAppend<T>(p: T -> bool, s: seq<T>, x: T)
    ensures Filter(p, s + [x]) == Filter(p, s) + (if p(x) then [x] else [])
  {
    FilterConcat(p, s, [x]);
    assert [x][1..] == [];
  }

  lemma {:induction false} FilterAll<T>(s: seq<T>, p: T -> bool)
    requires forall x | x in s :: p(x)
    ensures Filter(p, s) == s
  {
    if s != [] { FilterAll(s[1..], p); }
  }

  lemma {:induction false} FilterNone<T>(s: seq<T>, p: T -> bool)
    requires forall x | x in s :: !p(x)
    ensures Filter(p, s) == []
  {
    if s != [] { FilterNone(s[1..], p); }
  }

  lemma {:induction false} FilterSame<T>(p: T -> bool, q: T -> bool, s: seq<T>)
    requires forall x | x in s :: p(x) == q(x)
    ensures Filter(p, s) == Filter(q, s)
  {
    if s != [] { FilterSame(p, q, s[1..]); }
  }

  lemma ConcatAssociative<T>(a: seq<T>, b: seq<T>, c: seq<T>)
    ensures (a + b) + c == a + (b + c)
  {
  }

  // The concatenation of all the sequences in ss.
  function Flatten<T>(ss: seq<seq<T>>): seq<T> {
    if ss == [] then [] else ss[0] + Flatten(ss[1..])
  }

  lemma {:induction false} FlattenConcat<T>(a: seq<seq<T>>, b: seq<seq<T>>)
    ensures Flatten(a + b) == Flatten(a) + Flatten(b)
  {
    if a == [] {
      assert a + b == b;
    } else {
      assert (a + b)[1..] == a[1..] + b;
      FlattenConcat(a[1..], b);
      assert Flatten(a + b) == a[0] + Flatten(a[1..] + b);
    }
  }

  // What a loop that appends f(x) for each x collects.
  function FlatMap<A, B>(f: A -> seq<B>, s: seq<A>): seq<B> {
    if s == [] then [] else FlatMap(f, s[..|s| - 1]) + f(s[|s| - 1])
  }

  lemma {:induction false} FlatMapOfSingles<A, B>(f: A -> seq<B>, g: A -> B, s: seq<A>)
    requires forall i :: 0 <= i < |s| ==> f(s[i]) == [g(s[i])]
    ensures FlatMap(f, s) == Map(g, s)
  {
    if s != [] {
      var front, last := s[..|s| - 1], s[|s| - 1];
      FlatMapOfSingles(f, g, front);
      assert s == front + [last];
      assert Map(g, s) == Map(g, front) + [g(last)];
    }
  }

  // The greatest index below n with the property.
  function LastWhere(p: nat -> bool, n: nat): (r: Option<nat>)
    ensures r.Some? ==> r.value < n && p(r.value)
  {
    if n == 0 then None else if p(n - 1) then Some(n - 1) else LastWhere(p, n - 1)
  }

  lemma {:induction false} LastWhereIsLast(p: nat -> bool, n: nat, i: nat)
    requires i < n && p(i)
    ensures LastWhere(p, n).Some? && i <= LastWhere(p, n).value
  {
    if i < n - 1 { LastWhereIsLast(p, n - 1, i); }
  }

  // ---------- sums and counts ----------

  function Sum<T>(f: T -> nat, s: seq<T>): nat {
    if s == [] then 0 else f(s[0]) + Sum(f, s[1..])
  }

  lemma {:induction false} SumConcat<T>(f: T -> nat, a: seq<T>, b: seq<T>)
    ensures Sum(f, a + b) == Sum(f, a) + Sum(f, b)
  {
    if a == [] {
      assert a + b == b;
    } else {
      assert (a + b)[1..] == a[1..] + b;
      SumConcat(f, a[1..], b);
    }
  }

  lemma {:induction false} SumSplitAt<T>(f: T -> nat, s: seq<T>, i: nat)
    requires i < |s|
    ensures Sum(f, s) == f(s[i]) + Sum(f, s[..i] + s[i + 1..])
  {
    assert s == s[..i] + ([s[i]] + s[i + 1..]);
    SumConcat(f, s[..i], [s[i]] + s[i + 1..]);
    SumConcat(f, [s[i]], s[i + 1..]);
    SumConcat(f, s[..i], s[i + 1..]);
    assert [s[i]][1..] == [];
  }

  lemma RemoveFromPermutation<T>(a: seq<T>, b: seq<T>) returns (i: nat)
    requires a != [] && multiset(a) == multiset(b)
    ensures i < |b| && b[i] == a[0]
    ensures multiset(a[1..]) == multiset(b[..i] + b[i + 1..])
  {
    assert a == [a[0]] + a[1..];
    assert a[0] in multiset(b);
    i :| i < |b| && b[i] == a[0];
    var rest := b[..i] + b[i + 1..];
    assert multiset(b) == multiset(rest) + multiset{b[i]} by {
      assert b == b[..i] + [b[i]] + b[i + 1..];
    }
    assert multiset(a) == multiset(a[1..]) + multiset{a[0]};
    assert multiset(a[1..]) == multiset(a) - multiset{a[0]};
    assert multiset(rest) == multiset(b) - multiset{b[i]};
  }

  lemma {:induction false} SumPermutation<T>(f: T -> nat, a: seq<T>, b: seq<T>)
    requires multiset(a) == multiset(b)
    ensures Sum(f, a) == Sum(f, b)
    decreases |a|
  {
    if a == [] {
      assert |multiset(a)| == 0;
      assert b == [];
    } else {
      var i := RemoveFromPermutation(a, b);
      SumSplitAt(f, b, i);
      SumPermutation(f, a[1..], b[..i] + b[i + 1..]);
    }
  }

  lemma {:induction false} SumAgree<T>(f: T -> nat, g: T -> nat, s: seq<T>)
    requires forall x :: x in s ==> f(x) == g(x)
    ensures Sum(f, s) == Sum(g, s)
  {
    if s != [] {
      SumAgree(f, g, s[1..]);
    }
  }

  lemma {:induction false} SumPointwise<T>(f: T -> nat, g: T -> nat, h: T -> nat, s: seq<T>)
    requires forall x | x in s :: h(x) == f(x) + g(x)
    ensures Sum(h, s) == Sum(f, s) + Sum(g, s)
  {
    if s != [] { SumPointwise(f, g, h, s[1..]); }
  }

  lemma {:induction false} SumZero<T>(f: T -> nat, s: seq<T>)
    requires forall x | x in s :: f(x) == 0
    ensures Sum(f, s) == 0
  {
    if s != [] { SumZero(f, s[1..]); }
  }

  function RowOf<A, B>(f: (A, B) -> nat, a: A): B -> nat { (b: B) => f(a, b) }
  function ColumnOf<A, B>(f: (A, B) -> nat, b: B): A -> nat { (a: A) => f(a, b) }
  function RowSums<A, B>(f: (A, B) -> nat, t: seq<B>): A -> nat { (a: A) => Sum(RowOf(f, a), t) }
  function ColumnSums<A, B>(f: (A, B) -> nat, s: seq<A>): B -> nat { (b: B) => Sum(ColumnOf(f, b), s) }

  // Summing a table by rows or by columns.
  lemma {:induction false} SumExchange<A, B>(f: (A, B) -> nat, s: seq<A>, t: seq<B>)
    ensures Sum(RowSums(f, t), s) == Sum(ColumnSums(f, s), t)
  {
    if s == [] {
      SumZero(ColumnSums(f, s), t);
    } else {
      SumExchange(f, s[1..], t);
      SumPointwise(RowOf(f, s[0]), ColumnSums(f, s[1..]), ColumnSums(f, s), t);
    }
  }

  function Count<T>(p: T -> bool, s: seq<T>): nat {
    Sum((x: T) => if p(x) then 1 else 0, s)
  }

  lemma CountPermutation<T>(p: T -> bool, a: seq<T>, b: seq<T>)
    requires multiset(a) == multiset(b)
    ensures Count(p, a) == Count(p, b)
  {
    SumPermutation((x: T) => if p(x) then 1 else 0, a, b);
  }

  lemma {:induction false} CountBounds<T>(p: T -> bool, s: seq<T>)
    ensures Count(p, s) <= |s|
    ensures (forall x :: x in s ==> p(x)) ==> Count(p, s) == |s|
    ensures (forall x :: x in s ==> !p(x)) ==> Count(p, s) == 0
  {
    if s != [] {
      CountBounds(p, s[1..]);
    }
  }

  lemma CountOneMore<T>(p: T -> bool, s: seq<T>, i: nat)
    requires i < |s|
    ensures Count(p, s[..i + 1]) == Count(p, s[..i]) + (if p(s[i]) then 1 else 0)
  {
    assert s[..i + 1] == s[..i] + [s[i]];
    SumConcat((x: T) => if p(x) then 1 else 0, s[..i], [s[i]]);
    assert [s[i]][1..] == [];
  }

  lemma SumOneMore<T>(f: T -> nat, s: seq<T>, i: nat)
    requires i < |s|
    ensures Sum(f, s[..i + 1]) == Sum(f, s[..i]) + f(s[i])
  {
    assert s[..i + 1] == s[..i] + [s[i]];
    SumConcat(f, s[..i], [s[i]]);
    assert [s[i]][1..] == [];
  }

  lemma CountConcat<T>(p: T -> bool, a: seq<T>, b: seq<T>)
    ensures Count(p, a + b) == Count(p, a) + Count(p, b)
  {
    SumConcat((x: T) => if p(x) then 1 else 0, a, b);
  }

  lemma CountSplit<T>(p: T -> bool, s: seq<T>, k: nat)
    requires k <= |s|
    ensures Count(p, s) == Count(p, s[..k]) + Count(p, s[k..])
  {
    assert s == s[..k] + s[k..];
    SumConcat((x: T) => if p(x) then 1 else 0, s[..k], s[k..]);
  }

  lemma {:induction false} FilterPermutation<T>(p: T -> bool, a: seq<T>, b: seq<T>)
    requires multiset(a) == multiset(b)
    ensures multiset(Filter(p, a)) == multiset(Filter(p, b))
    decreases |a|
  {
    if a == [] {
      assert |multiset(a)| == 0;
      assert b == [];
    } else {
      var i := RemoveFromPermutation(a, b);
      FilterPermutation(p, a[1..], b[..i] + b[i + 1..]);
      assert b == b[..i] + ([b[i]] + b[i + 1..]);
      FilterConcat(p, b[..i], [b[i]] + b[i + 1..]);
      FilterConcat(p, [b[i]], b[i + 1..]);
      FilterConcat(p, b[..i], b[i + 1..]);
      assert [b[i]][1..] == [];
    }
  }

  lemma {:induction false} MapPermutation<A, B>(f: A -> B, a: seq<A>, b: seq<A>)
    requires multiset(a) == multiset(b)
    ensures multiset(Map(f, a)) == multiset(Map(f, b))
    decreases |a|
  {
    if a == [] {
      assert |multiset(a)| == 0;
      assert b == [];
    } else {
      var i := RemoveFromPermutation(a, b);
      var rest := b[..i] + b[i + 1..];
      MapPermutation(f, a[1..], rest);
      assert Map(f, a) == [f(a[0])] + Map(f, a[1..]);
      assert Map(f, b) == Map(f, b[..i]) + [f(b[i])] + Map(f, b[i + 1..]);
      assert Map(f, rest) == Map(f, b[..i]) + Map(f, b[i + 1..]);
    }
  }

  lemma MapConcat<A, B>(f: A -> B, a: seq<A>, b: seq<A>)
    ensures Map(f, a + b) == Map(f, a) + Map(f, b)
  {
  }

  // ---------- sorting ----------

  ghost predicate TotalOrder<K(!new)>(leq: (K, K) -> bool) {
    && (forall a :: leq(a, a))
    && (forall a, b :: leq(a, b) || leq(b, a))
    && (forall a, b :: leq(a, b) && leq(b, a) ==> a == b)
    && (forall a, b, c :: leq(a, b) && leq(b, c) ==> leq(a, c))
  }

  predicate IntLeq(a: int, b: int) { a <= b }

  ghost predicate Sorted<K>(leq: (K, K) -> bool, s: seq<K>) {
    forall i, j :: 0 <= i < j < |s| ==> leq(s[i], s[j])
  }

  // r is one of the results slices.SortFunc may return for s.
  ghost predicate SortedPermutation<T, K>(s: seq<T>, r: seq<T>, key: T -> K, leq: (K, K) -> bool) {
    multiset(r) == multiset(s) && Sorted(leq, Map(key, r))
  }

  function InsertByKey<T, K>(x: T, s: seq<T>, key: T -> K, leq: (K, K) -> bool): seq<T> {
    if s == [] || leq(key(x), key(s[0])) then [x] + s else [s[0]] + InsertByKey(x, s[1..], key, leq)
  }

  function SortByKey<T, K>(s: seq<T>, key: T -> K, leq: (K, K) -> bool): seq<T> {
    if s == [] then [] else InsertByKey(s[0], SortByKey(s[1..], key, leq), key, leq)
  }

  lemma {:induction false} InsertByKeyPermutes<T, K>(x: T, s: seq<T>, key: T -> K, leq: (K, K) -> bool)
    ensures multiset(InsertByKey(x, s, key, leq)) == multiset([x] + s)
  {
    if s != [] && !leq(key(x), key(s[0])) {
      InsertByKeyPermutes(x, s[1..], key, leq);
      assert s == [s[0]] + s[1..];
    }
  }

  // k is below every key of s.
  ghost predicate BelowAll<T, K>(k: K, s: seq<T>, key: T -> K, leq: (K, K) -> bool) {
    forall i :: 0 <= i < |s| ==> leq(k, key(s[i]))
  }

  lemma SortedPrepend<K>(k: K, ks: seq<K>, leq: (K, K) -> bool)
    ensures Sorted(leq, [k] + ks) <==> Sorted(leq, ks) && forall i :: 0 <= i < |ks| ==> leq(k, ks[i])
  {
    var all := [k] + ks;
    assert all[1..] == ks;
    if Sorted(leq, all) {
      forall i, j | 0 <= i < j < |ks| ensures leq(ks[i], ks[j]) {
        assert ks[i] == all[i + 1] && ks[j] == all[j + 1];
      }
      forall i | 0 <= i < |ks| ensures leq(k, ks[i]) {
        assert all[0] == k && ks[i] == all[i + 1];
      }
    }
  }

  lemma SortedCons<T, K>(y: T, s: seq<T>, key: T -> K, leq: (K, K) -> bool)
    ensures Sorted(leq, Map(key, [y] + s)) <==> Sorted(leq, Map(key, s)) && BelowAll(key(y), s, key, leq)
  {
    assert Map(key, [y] + s) == [key(y)] + Map(key, s);
    SortedPrepend(key(y), Map(key, s), leq);
    assert forall i :: 0 <= i < |s| ==> Map(key, s)[i] == key(s[i]);
  }

  lemma BelowAllPermutation<T, K>(k: K, a: seq<T>, b: seq<T>, key: T -> K, leq: (K, K) -> bool)
    requires BelowAll(k, a, key, leq) && multiset(a) == multiset(b)
    ensures BelowAll(k, b, key, leq)
  {
    forall i | 0 <= i < |b| ensures leq(k, key(b[i])) {
      assert b[i] in multiset(a);
    }
  }

  lemma {:induction false} InsertByKeySorts<T, K(!new)>(x: T, s: seq<T>, key: T -> K, leq: (K, K) -> bool)
    requires TotalOrder(leq) && Sorted(leq, Map(key, s))
    ensures Sorted(leq, Map(key, InsertByKey(x, s, key, leq)))
  {
    if s == [] {
    } else {
      var y, rest := s[0], s[1..];
      assert s == [y] + rest;
      SortedCons(y, rest, key, leq);
      if leq(key(x), key(y)) {
        assert BelowAll(key(x), s, key, leq);
        SortedCons(x, s, key, leq);
      } else {
        InsertByKeySorts(x, rest, key, leq);
        var t := InsertByKey(x, rest, key, leq);
        InsertByKeyPermutes(x, rest, key, leq);
        assert BelowAll(key(y), [x] + rest, key, leq);
        BelowAllPermutation(key(y), [x] + rest, t, key, leq);
        SortedCons(y, t, key, leq);
      }
    }
  }

  lemma {:induction false} SortByKeySorts<T, K(!new)>(s: seq<T>, key: T -> K, leq: (K, K) -> bool)
    requires TotalOrder(leq)
    ensures SortedPermutation(s, SortByKey(s, key, leq), key, leq)
  {
    if s != [] {
      SortByKeySorts(s[1..], key, leq);
      var t := SortByKey(s[1..], key, leq);
      InsertByKeySorts(s[0], t, key, leq);
      InsertByKeyPermutes(s[0], t, key, leq);
      assert multiset([s[0]] + t) == multiset([s[0]] + s[1..]);
      assert s == [s[0]] + s[1..];
    }
  }

  // slices.SortFunc: callers learn that the result is a sorted permutation and nothing more.
  method SortFunc<T, K(!new)>(s: seq<T>, key: T -> K, leq: (K, K) -> bool) returns (r: seq<T>)
    requires TotalOrder(leq)
    ensures SortedPermutation(s, r, key, leq)
  {
    SortByKeySorts(s, key, leq);
    r := SortByKey(s, key, leq);
  }

  lemma HeadIsLeast<K(!new)>(leq: (K, K) -> bool, a: seq<K>, x: K)
    requires TotalOrder(leq) && Sorted(leq, a) && x in multiset(a)
    ensures a != [] && leq(a[0], x)
  {
    var i :| 0 <= i < |a| && a[i] == x;
  }

  // A sorted sequence over an antisymmetric order is determined by its multiset.
  lemma {:induction false} SortedIsUnique<K(!new)>(leq: (K, K) -> bool, a: seq<K>, b: seq<K>)
    requires TotalOrder(leq) && Sorted(leq, a) && Sorted(leq, b)
    requires multiset(a) == multiset(b)
    ensures a == b
  {
    if a == [] {
      assert |multiset(a)| == 0;
      assert b == [];
    } else {
      HeadIsLeast(leq, b, a[0]);
      HeadIsLeast(leq, a, b[0]);
      assert a == [a[0]] + a[1..] && b == [b[0]] + b[1..];
      assert multiset(a[1..]) == multiset(a) - multiset{a[0]};
      assert multiset(b[1..]) == multiset(b) - multiset{b[0]};
      SortedIsUnique(leq, a[1..], b[1..]);
    }
  }

  // Every sorted permutation has the same keys in the same places.
  lemma SortedKeysAgree<T, K(!new)>(s: seq<T>, r1: seq<T>, r2: seq<T>, key: T -> K, leq: (K, K) -> bool)
    requires TotalOrder(leq)
    requires SortedPermutation(s, r1, key, leq) && SortedPermutation(s, r2, key, leq)
    ensures Map(key, r1) == Map(key, r2)
  {
    MapPermutation(key, r1, r2);
    SortedIsUnique(leq, Map(key, r1), Map(key, r2));
  }

  ghost predicate DistinctKeys<T, K>(s: seq<T>, key: T -> K) {
    forall i, j :: 0 <= i < j < |s| ==> key(s[i]) != key(s[j])
  }

  // With distinct keys there is only one sorted permutation.
  lemma SortedPermutationIsUnique<T, K(!new)>(s: seq<T>, r1: seq<T>, r2: seq<T>, key: T -> K, leq: (K, K) -> bool)
    requires TotalOrder(leq) && DistinctKeys(s, key)
    requires SortedPermutation(s, r1, key, leq) && SortedPermutation(s, r2, key, leq)
    ensures r1 == r2
  {
    SortedKeysAgree(s, r1, r2, key, leq);
    assert |r1| == |r2|;
    forall i | 0 <= i < |r1| ensures r1[i] == r2[i] {
      assert r1[i] in multiset(s) && r2[i] in multiset(s);
      var p :| 0 <= p < |s| && s[p] == r1[i];
      var q :| 0 <= q < |s| && s[q] == r2[i];
      assert Map(key, r1)[i] == Map(key, r2)[i];
      assert p == q;
    }
  }
}
