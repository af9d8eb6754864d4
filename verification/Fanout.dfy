// One goroutine per element, four shared slices behind one mutex, then unstable sorts.  The
// machine below interleaves the goroutines append by append.
module Fanout {
  import opened Common

  // What one goroutine appends to the four slices, in this order.
  datatype Output<+J, +P> = Output(item: J, parts: seq<P>, picked: seq<J>, pickedParts: seq<P>)

  datatype Pc = Computing | Ready | Holding(appended: nat) | Done

  // order is history: the goroutines in the order in which they took the mutex.
  datatype Fan<+J, +P> = Fan(
    pcs: seq<Pc>, mutex: Option<nat>, order: seq<nat>,
    all: seq<J>, parts: seq<P>, picked: seq<J>, pickedParts: seq<P>)

  datatype Act = Compute(w: nat) | Lock(w: nat) | Append(w: nat) | Unlock(w: nat)

  predicate Enabled<J, P>(f: Fan<J, P>, a: Act) {
    && a.w < |f.pcs|
    && match a
       case Compute(w) => f.pcs[w].Computing?
       case Lock(w) => f.pcs[w].Ready? && f.mutex.None?
       case Append(w) => f.pcs[w].Holding? && f.pcs[w].appended < 4
       case Unlock(w) => f.pcs[w] == Holding(4)
  }

  function Do<J, P>(outs: seq<Output<J, P>>, f: Fan<J, P>, a: Act): Fan<J, P>
    requires |outs| == |f.pcs| && Enabled(f, a)
  {
    match a
    case Compute(w) => f.(pcs := f.pcs[w := Ready])
    case Lock(w) => f.(pcs := f.pcs[w := Holding(0)], mutex := Some(w), order := f.order + [w])
    case Append(w) =>
      var k := f.pcs[w].appended;
      var g := f.(pcs := f.pcs[w := Holding(k + 1)]);
      if k == 0 then g.(all := f.all + [outs[w].item])
      else if k == 1 then g.(parts := f.parts + outs[w].parts)
      else if k == 2 then g.(picked := f.picked + outs[w].picked)
      else g.(pickedParts := f.pickedParts + outs[w].pickedParts)
    case Unlock(w) => f.(pcs := f.pcs[w := Done], mutex := None)
  }

  function Start<J, P>(n: nat): Fan<J, P> {
    Fan(seq(n, i => Computing), None, [], [], [], [], [])
  }

  ghost predicate Steps<J(!new), P(!new)>(outs: seq<Output<J, P>>, f: Fan<J, P>, acts: seq<Act>, g: Fan<J, P>)
    decreases acts
  {
    if acts == [] then f == g
    else |outs| == |f.pcs| && Enabled(f, acts[0]) && Steps(outs, Do(outs, f, acts[0]), acts[1..], g)
  }

  ghost predicate Reachable<J(!new), P(!new)>(outs: seq<Output<J, P>>, f: Fan<J, P>) {
    exists acts :: Steps(outs, Start(|outs|), acts, f)
  }

  // wg.Wait() returns.
  predicate Finished<J, P>(f: Fan<J, P>) { forall w :: 0 <= w < |f.pcs| ==> f.pcs[w].Done? }

  // ---------- the invariant ----------

  function Gather<X>(pick: nat -> seq<X>, ws: seq<nat>): seq<X> {
    if ws == [] then [] else Gather(pick, ws[..|ws| - 1]) + pick(ws[|ws| - 1])
  }

  function Items<J, P>(outs: seq<Output<J, P>>): nat -> seq<J> {
    (w: nat) => if w < |outs| then [outs[w].item] else []
  }
  function Parts<J, P>(outs: seq<Output<J, P>>): nat -> seq<P> {
    (w: nat) => if w < |outs| then outs[w].parts else []
  }
  function Picked<J, P>(outs: seq<Output<J, P>>): nat -> seq<J> {
    (w: nat) => if w < |outs| then outs[w].picked else []
  }
  function PickedParts<J, P>(outs: seq<Output<J, P>>): nat -> seq<P> {
    (w: nat) => if w < |outs| then outs[w].pickedParts else []
  }

  // The goroutines that have left their critical section.
  function Left<J, P>(f: Fan<J, P>): seq<nat> {
    if f.mutex.Some? && f.order != [] then f.order[..|f.order| - 1] else f.order
  }

  function Progress<J, P>(f: Fan<J, P>): nat {
    if f.mutex.Some? && f.mutex.value < |f.pcs| && f.pcs[f.mutex.value].Holding?
    then f.pcs[f.mutex.value].appended else 0
  }

  // A slice is what the goroutines that have left appended, in mutex order, plus what the
  // holder has appended to it so far.
  predicate SliceIs<X(==)>(slice: seq<X>, pick: nat -> seq<X>, ws: seq<nat>, holder: Option<nat>, already: bool) {
    slice == Gather(pick, ws) + (if holder.Some? && already then pick(holder.value) else [])
  }

  predicate Bounded(ws: seq<nat>, n: nat) { forall i :: 0 <= i < |ws| ==> ws[i] < n }

  ghost predicate Inv<J, P>(outs: seq<Output<J, P>>, f: Fan<J, P>) {
    && |f.pcs| == |outs|
    && (forall w :: 0 <= w < |outs| ==> (f.pcs[w].Holding? <==> f.mutex == Some(w)))
    && (forall w :: 0 <= w < |outs| ==> (f.pcs[w].Done? <==> w in Left(f)))
    && (f.mutex.Some? ==>
          f.mutex.value < |outs| && f.order != [] && f.order[|f.order| - 1] == f.mutex.value && Progress(f) <= 4)
    && (forall i, j :: 0 <= i < j < |f.order| ==> f.order[i] != f.order[j])
    && Bounded(f.order, |outs|)
    && SliceIs(f.all, Items(outs), Left(f), f.mutex, Progress(f) > 0)
    && SliceIs(f.parts, Parts(outs), Left(f), f.mutex, Progress(f) > 1)
    && SliceIs(f.picked, Picked(outs), Left(f), f.mutex, Progress(f) > 2)
    && SliceIs(f.pickedParts, PickedParts(outs), Left(f), f.mutex, Progress(f) > 3)
  }

  lemma LockKeepsInv<J, P>(outs: seq<Output<J, P>>, f: Fan<J, P>, w: nat)
    requires Inv(outs, f) && Enabled(f, Lock(w))
    ensures Inv(outs, Do(outs, f, Lock(w)))
  {
    var g := Do(outs, f, Lock(w));
    assert Left(f) == f.order && Left(g) == f.order;
    assert w !in f.order;
  }

  lemma SliceOnAppend<X>(slice: seq<X>, pick: nat -> seq<X>, ws: seq<nat>, w: nat)
    requires SliceIs(slice, pick, ws, Some(w), false)
    ensures SliceIs(slice + pick(w), pick, ws, Some(w), true)
  {
    assert Gather(pick, ws) + [] == Gather(pick, ws);
  }

  lemma AppendSlices<J, P>(outs: seq<Output<J, P>>, f: Fan<J, P>, w: nat)
    requires Inv(outs, f) && Enabled(f, Append(w))
    ensures var g, k := Do(outs, f, Append(w)), f.pcs[w].appended;
      && SliceIs(g.all, Items(outs), Left(f), Some(w), k >= 0)
      && SliceIs(g.parts, Parts(outs), Left(f), Some(w), k >= 1)
      && SliceIs(g.picked, Picked(outs), Left(f), Some(w), k >= 2)
      && SliceIs(g.pickedParts, PickedParts(outs), Left(f), Some(w), k >= 3)
  {
    var k := f.pcs[w].appended;
    if k == 0 { SliceOnAppend(f.all, Items(outs), Left(f), w); }
    else if k == 1 { SliceOnAppend(f.parts, Parts(outs), Left(f), w); }
    else if k == 2 { SliceOnAppend(f.picked, Picked(outs), Left(f), w); }
    else { SliceOnAppend(f.pickedParts, PickedParts(outs), Left(f), w); }
  }

  lemma AppendKeepsInv<J, P>(outs: seq<Output<J, P>>, f: Fan<J, P>, w: nat)
    requires Inv(outs, f) && Enabled(f, Append(w))
    ensures Inv(outs, Do(outs, f, Append(w)))
  {
    var g := Do(outs, f, Append(w));
    AppendSlices(outs, f, w);
    assert f.mutex == Some(w) && g.mutex == Some(w) && g.order == f.order && Left(g) == Left(f);
    assert Progress(g) == f.pcs[w].appended + 1;
  }

  lemma SliceOnUnlock<X>(slice: seq<X>, pick: nat -> seq<X>, order: seq<nat>, w: nat)
    requires order != [] && order[|order| - 1] == w
    requires SliceIs(slice, pick, order[..|order| - 1], Some(w), true)
    ensures SliceIs(slice, pick, order, None, false)
  {
    assert slice + [] == slice;
  }

  lemma UnlockSlices<J, P>(outs: seq<Output<J, P>>, f: Fan<J, P>, w: nat)
    requires Inv(outs, f) && Enabled(f, Unlock(w))
    ensures SliceIs(f.all, Items(outs), f.order, None, false)
    ensures SliceIs(f.parts, Parts(outs), f.order, None, false)
    ensures SliceIs(f.picked, Picked(outs), f.order, None, false)
    ensures SliceIs(f.pickedParts, PickedParts(outs), f.order, None, false)
  {
    SliceOnUnlock(f.all, Items(outs), f.order, w);
    SliceOnUnlock(f.parts, Parts(outs), f.order, w);
    SliceOnUnlock(f.picked, Picked(outs), f.order, w);
    SliceOnUnlock(f.pickedParts, PickedParts(outs), f.order, w);
  }

  lemma UnlockKeepsInv<J, P>(outs: seq<Output<J, P>>, f: Fan<J, P>, w: nat)
    requires Inv(outs, f) && Enabled(f, Unlock(w))
    ensures Inv(outs, Do(outs, f, Unlock(w)))
  {
    var g := Do(outs, f, Unlock(w));
    UnlockSlices(outs, f, w);
    assert Left(g) == f.order && Progress(g) == 0;
    assert f.order == Left(f) + [w];
    assert w in f.order;
    forall v | 0 <= v < |outs| ensures g.pcs[v].Done? <==> v in f.order {
      assert v in f.order <==> v in Left(f) || v == w;
    }
  }

  lemma StepKeepsInv<J, P>(outs: seq<Output<J, P>>, f: Fan<J, P>, a: Act)
    requires Inv(outs, f) && Enabled(f, a)
    ensures Inv(outs, Do(outs, f, a))
  {
    match a
    case Compute(w) =>
      assert Left(Do(outs, f, a)) == Left(f) && Progress(Do(outs, f, a)) == Progress(f);
    case Lock(w) => LockKeepsInv(outs, f, w);
    case Append(w) => AppendKeepsInv(outs, f, w);
    case Unlock(w) => UnlockKeepsInv(outs, f, w);
  }

  lemma {:induction false} StepsKeepInv<J(!new), P(!new)>(outs: seq<Output<J, P>>, f: Fan<J, P>, acts: seq<Act>, g: Fan<J, P>)
    requires Inv(outs, f) && Steps(outs, f, acts, g)
    ensures Inv(outs, g)
    decreases acts
  {
    if acts != [] {
      StepKeepsInv(outs, f, acts[0]);
      StepsKeepInv(outs, Do(outs, f, acts[0]), acts[1..], g);
    }
  }

  // Every reachable state satisfies the invariant; at most one goroutine is between Lock and
  // Unlock.
  lemma ReachableSatisfiesInv<J(!new), P(!new)>(outs: seq<Output<J, P>>, f: Fan<J, P>)
    requires Reachable(outs, f)
    ensures Inv(outs, f)
    ensures forall v, w :: 0 <= v < w < |f.pcs| ==> !(f.pcs[v].Holding? && f.pcs[w].Holding?)
  {
    var acts :| Steps(outs, Start(|outs|), acts, f);
    var s: Fan<J, P> := Start(|outs|);
    assert Inv(outs, s);
    StepsKeepInv(outs, s, acts, f);
  }

  // ---------- what the slices hold ----------

  lemma {:induction false} FilterGather<X>(p: X -> bool, all: nat -> seq<X>, some: nat -> seq<X>, ws: seq<nat>)
    requires forall i :: 0 <= i < |ws| ==> some(ws[i]) == Filter(p, all(ws[i]))
    ensures Gather(some, ws) == Filter(p, Gather(all, ws))
  {
    if ws != [] {
      var front, last := ws[..|ws| - 1], ws[|ws| - 1];
      FilterGather(p, all, some, front);
      FilterConcat(p, Gather(all, front), all(last));
    }
  }

  lemma FreeSlices<J(!new), P(!new)>(outs: seq<Output<J, P>>, f: Fan<J, P>)
    requires Reachable(outs, f) && f.mutex.None?
    ensures f.all == Gather(Items(outs), f.order) && f.parts == Gather(Parts(outs), f.order)
    ensures f.picked == Gather(Picked(outs), f.order) && f.pickedParts == Gather(PickedParts(outs), f.order)
    ensures Bounded(f.order, |outs|)
  {
    ReachableSatisfiesInv(outs, f);
  }

  ghost predicate PicksBy<J, P>(outs: seq<Output<J, P>>, p: J -> bool, q: P -> bool) {
    forall w :: 0 <= w < |outs| ==>
      outs[w].picked == Filter(p, [outs[w].item]) && outs[w].pickedParts == Filter(q, outs[w].parts)
  }

  // Whenever the mutex is free the filtered slices are the filters of the full slices, as
  // sequences, whatever the schedule so far.
  lemma PickedSlicesAreFilters<J(!new), P(!new)>(outs: seq<Output<J, P>>, f: Fan<J, P>, p: J -> bool, q: P -> bool)
    requires Reachable(outs, f) && f.mutex.None? && PicksBy(outs, p, q)
    ensures f.picked == Filter(p, f.all) && f.pickedParts == Filter(q, f.parts)
  {
    FreeSlices(outs, f);
    FilterGather(p, Items(outs), Picked(outs), f.order);
    FilterGather(q, Parts(outs), PickedParts(outs), f.order);
  }

  function Item<J, P>(outs: seq<Output<J, P>>): nat -> Option<J> {
    (w: nat) => if w < |outs| then Some(outs[w].item) else None
  }

  lemma {:induction false} GatheredItems<J, P>(outs: seq<Output<J, P>>, ws: seq<nat>)
    requires Bounded(ws, |outs|)
    ensures |Gather(Items(outs), ws)| == |ws|
    ensures forall i :: 0 <= i < |ws| ==> Gather(Items(outs), ws)[i] == outs[ws[i]].item
  {
    if ws != [] {
      GatheredItems(outs, ws[..|ws| - 1]);
    }
  }

  function AllItems<J, P>(outs: seq<Output<J, P>>): seq<J> {
    seq(|outs|, i requires 0 <= i < |outs| => outs[i].item)
  }

  function Indices(n: nat): seq<nat> { seq(n, (i: nat) => i) }

  lemma {:induction false} DistinctBoundedIsPermutation(ws: seq<nat>, n: nat)
    requires forall i, j :: 0 <= i < j < |ws| ==> ws[i] != ws[j]
    requires forall w: nat :: w in ws <==> w < n
    ensures multiset(ws) == multiset(Indices(n))
  {
    var all := Indices(n);
    forall x: nat ensures multiset(ws)[x] == multiset(all)[x] {
      DistinctCount(ws, x);
      DistinctCount(all, x);
      if x < n { assert all[x] == x; }
    }
  }

  lemma {:induction false} DistinctCount(s: seq<nat>, x: nat)
    requires forall i, j :: 0 <= i < j < |s| ==> s[i] != s[j]
    ensures multiset(s)[x] == if x in s then 1 else 0
  {
    if s != [] {
      var front, last := s[..|s| - 1], s[|s| - 1];
      assert s == front + [last];
      DistinctCount(front, x);
    }
  }

  lemma {:induction false} GatherMembers<X>(pick: nat -> seq<X>, ws: seq<nat>, x: X)
    ensures x in Gather(pick, ws) <==> exists i :: 0 <= i < |ws| && x in pick(ws[i])
  {
    if ws != [] {
      var front, last := ws[..|ws| - 1], ws[|ws| - 1];
      GatherMembers(pick, front, x);
      assert ws == front + [last];
      if i :| 0 <= i < |front| && x in pick(front[i]) { assert x in pick(ws[i]); }
      if i :| 0 <= i < |ws| && x in pick(ws[i]) && i < |front| { assert x in pick(front[i]); }
      if x in pick(last) { assert x in pick(ws[|ws| - 1]); }
    }
  }

  lemma {:induction false} GatherConcat<X>(pick: nat -> seq<X>, a: seq<nat>, b: seq<nat>)
    ensures Gather(pick, a + b) == Gather(pick, a) + Gather(pick, b)
  {
    if b == [] {
      assert a + b == a;
    } else {
      assert (a + b)[..|a + b| - 1] == a + b[..|b| - 1];
      GatherConcat(pick, a, b[..|b| - 1]);
    }
  }

  lemma GatherFirst<X>(pick: nat -> seq<X>, w: nat, rest: seq<nat>)
    ensures Gather(pick, [w] + rest) == pick(w) + Gather(pick, rest)
  {
    GatherConcat(pick, [w], rest);
    assert [w][..0] == [];
  }

  // Another order of the critical sections gathers the same elements.
  lemma {:induction false} GatherPermutation<X>(pick: nat -> seq<X>, a: seq<nat>, b: seq<nat>)
    requires multiset(a) == multiset(b)
    ensures multiset(Gather(pick, a)) == multiset(Gather(pick, b))
    decreases |a|
  {
    if a == [] {
      assert |multiset(b)| == 0;
      assert b == [];
    } else {
      var i := RemoveFromPermutation(a, b);
      var before, after := b[..i], b[i + 1..];
      GatherPermutation(pick, a[1..], before + after);
      assert a == [a[0]] + a[1..] && b == before + ([b[i]] + after);
      GatherFirst(pick, a[0], a[1..]);
      GatherFirst(pick, b[i], after);
      GatherConcat(pick, before, [b[i]] + after);
      GatherConcat(pick, before, after);
    }
  }

  // The orders in which n goroutines can take the mutex.
  ghost predicate IsOrder(order: seq<nat>, n: nat) { multiset(order) == multiset(Indices(n)) }

  ghost predicate Commute<X(!new)>(pick: nat -> seq<X>, n: nat) {
    forall v, w :: 0 <= v < w < n ==> pick(v) + pick(w) == pick(w) + pick(v)
  }

  lemma {:induction false} CommutesWithGather<X(!new)>(pick: nat -> seq<X>, w: nat, ws: seq<nat>)
    requires forall i :: 0 <= i < |ws| ==> pick(w) + pick(ws[i]) == pick(ws[i]) + pick(w)
    ensures pick(w) + Gather(pick, ws) == Gather(pick, ws) + pick(w)
  {
    if ws != [] {
      var front, last := ws[..|ws| - 1], ws[|ws| - 1];
      CommutesWithGather(pick, w, front);
      ConcatAssociative(pick(w), Gather(pick, front), pick(last));
      ConcatAssociative(Gather(pick, front), pick(w), pick(last));
      ConcatAssociative(Gather(pick, front), pick(last), pick(w));
    }
  }

  // What w appends may come first or after the others.
  lemma MovedToFront<X(!new)>(pick: nat -> seq<X>, w: nat, before: seq<nat>, after: seq<nat>)
    requires forall i :: 0 <= i < |before| ==> pick(w) + pick(before[i]) == pick(before[i]) + pick(w)
    ensures Gather(pick, before + ([w] + after)) == pick(w) + Gather(pick, before + after)
  {
    CommutesWithGather(pick, w, before);
    GatherFirst(pick, w, after);
    GatherConcat(pick, before, [w] + after);
    GatherConcat(pick, before, after);
    ConcatAssociative(pick(w), Gather(pick, before), Gather(pick, after));
    ConcatAssociative(Gather(pick, before), pick(w), Gather(pick, after));
  }

  lemma BoundedPermutation(a: seq<nat>, b: seq<nat>, n: nat)
    requires Bounded(a, n) && multiset(a) == multiset(b)
    ensures Bounded(b, n)
  {
    forall k | 0 <= k < |b| ensures b[k] < n {
      assert b[k] in multiset(a);
    }
  }

  lemma {:induction false} CommutingGathersAgree<X(!new)>(pick: nat -> seq<X>, n: nat, a: seq<nat>, b: seq<nat>)
    requires Commute(pick, n) && Bounded(a, n) && multiset(a) == multiset(b)
    ensures Gather(pick, a) == Gather(pick, b)
    decreases |a|
  {
    if a == [] {
      assert |multiset(b)| == 0;
      assert b == [];
    } else {
      var i := RemoveFromPermutation(a, b);
      var before, after := b[..i], b[i + 1..];
      BoundedPermutation(a, b, n);
      CommutingGathersAgree(pick, n, a[1..], before + after);
      assert a == [a[0]] + a[1..] && b == before + ([b[i]] + after);
      GatherFirst(pick, a[0], a[1..]);
      MovedToFront(pick, b[i], before, after);
    }
  }

  // Two orders that differ in which of v and w comes first, with nothing before them.
  lemma BothFirst(v: nat, w: nat, n: nat) returns (rest: seq<nat>)
    requires v < w < n
    ensures IsOrder([v] + ([w] + rest), n) && IsOrder([w] + ([v] + rest), n)
  {
    var all := Indices(n);
    rest := all[..v] + all[v + 1..w] + all[w + 1..];
    assert all == all[..v] + [v] + all[v + 1..w] + [w] + all[w + 1..];
  }

  ghost predicate GathersAgree<X(!new)>(pick: nat -> seq<X>, n: nat) {
    forall a, b :: IsOrder(a, n) && IsOrder(b, n) ==> Gather(pick, a) == Gather(pick, b)
  }

  lemma AgreeingGathers<X(!new)>(pick: nat -> seq<X>, n: nat, a: seq<nat>, b: seq<nat>)
    requires GathersAgree(pick, n) && IsOrder(a, n) && IsOrder(b, n)
    ensures Gather(pick, a) == Gather(pick, b)
  {
  }

  lemma FirstTwoCommute<X>(pick: nat -> seq<X>, v: nat, w: nat, rest: seq<nat>)
    requires Gather(pick, [v] + ([w] + rest)) == Gather(pick, [w] + ([v] + rest))
    ensures pick(v) + pick(w) == pick(w) + pick(v)
  {
    TwoFirst(pick, v, w, rest);
    TwoFirst(pick, w, v, rest);
    SamePrefix(pick(v) + pick(w), pick(w) + pick(v), Gather(pick, rest));
  }

  lemma AgreeingGathersCommute<X(!new)>(pick: nat -> seq<X>, n: nat, v: nat, w: nat)
    requires GathersAgree(pick, n) && v < w < n
    ensures pick(v) + pick(w) == pick(w) + pick(v)
  {
    var rest := BothFirst(v, w, n);
    AgreeingGathers(pick, n, [v] + ([w] + rest), [w] + ([v] + rest));
    FirstTwoCommute(pick, v, w, rest);
  }

  // All orders gather the same sequence if and only if what any two goroutines append commutes.
  lemma GathersAgreeIff<X(!new)>(pick: nat -> seq<X>, n: nat)
    ensures GathersAgree(pick, n) <==> Commute(pick, n)
  {
    if Commute(pick, n) {
      forall a, b | IsOrder(a, n) && IsOrder(b, n) ensures Gather(pick, a) == Gather(pick, b) {
        PermutedIndices(a, n);
        assert forall i :: 0 <= i < |a| ==> a[i] in a;
        CommutingGathersAgree(pick, n, a, b);
      }
    } else {
      var v, w :| 0 <= v < w < n && pick(v) + pick(w) != pick(w) + pick(v);
      if GathersAgree(pick, n) { AgreeingGathersCommute(pick, n, v, w); }
    }
  }

  lemma TwoFirst<X>(pick: nat -> seq<X>, v: nat, w: nat, rest: seq<nat>)
    ensures Gather(pick, [v] + ([w] + rest)) == (pick(v) + pick(w)) + Gather(pick, rest)
  {
    GatherFirst(pick, v, [w] + rest);
    GatherFirst(pick, w, rest);
  }

  lemma TwoGathered<X>(pick: nat -> seq<X>, v: nat, w: nat)
    ensures Gather(pick, [v, w]) == pick(v) + pick(w)
  {
    TwoFirst(pick, v, w, []);
    assert [v, w] == [v] + ([w] + []);
  }

  lemma OrdersOfTwo()
    ensures IsOrder([0, 1], 2) && IsOrder([1, 0], 2)
  {
    assert Indices(2) == [0, 1];
    assert [0, 1] == [0] + [1] && [1, 0] == [1] + [0];
  }

  lemma SamePrefix<X>(a: seq<X>, b: seq<X>, c: seq<X>)
    requires a + c == b + c
    ensures a == b
  {
    assert |a| == |b|;
    assert (a + c)[..|a|] == a && (b + c)[..|b|] == b;
  }

  lemma EveryoneWasFirstOnce<J(!new), P(!new)>(outs: seq<Output<J, P>>, f: Fan<J, P>)
    requires Inv(outs, f) && Finished(f)
    ensures f.mutex.None? && IsOrder(f.order, |outs|)
  {
    assert f.mutex.None?;
    forall w: nat ensures w in f.order <==> w < |outs| {
      if w < |outs| { assert f.pcs[w].Done?; }
    }
    DistinctBoundedIsPermutation(f.order, |outs|);
  }

  lemma GatheredIsPermuted<J(!new), P(!new)>(outs: seq<Output<J, P>>, order: seq<nat>)
    requires IsOrder(order, |outs|) && Bounded(order, |outs|)
    ensures multiset(Gather(Items(outs), order)) == multiset(AllItems(outs))
  {
    var gathered, all := Gather(Items(outs), order), Indices(|outs|);
    GatheredItems(outs, order);
    MapPermutation<nat, Option<J>>(Item(outs), order, all);
    assert Map<nat, Option<J>>(Item(outs), order) == Map((x: J) => Some(x), gathered);
    assert Map<nat, Option<J>>(Item(outs), all) == Map((x: J) => Some(x), AllItems(outs));
    SomesArePermuted(gathered, AllItems(outs));
  }

  // When every goroutine is done, the full slice is a permutation of the responses.
  lemma FinishedCollectsAll<J(!new), P(!new)>(outs: seq<Output<J, P>>, f: Fan<J, P>)
    requires Reachable(outs, f) && Finished(f)
    ensures f.mutex.None?
    ensures multiset(f.all) == multiset(AllItems(outs))
    ensures IsOrder(f.order, |outs|)
    ensures f.parts == Gather(Parts(outs), f.order)
  {
    assert Inv(outs, f) by { ReachableSatisfiesInv(outs, f); }
    EveryoneWasFirstOnce(outs, f);
    FreeSlices(outs, f);
    GatheredIsPermuted(outs, f.order);
  }

  lemma {:induction false} SomeCount<J>(s: seq<J>, x: J)
    ensures multiset(Map((y: J) => Some(y), s))[Some(x)] == multiset(s)[x]
  {
    if s != [] {
      var front, last := s[..|s| - 1], s[|s| - 1];
      assert s == front + [last];
      SomeCount(front, x);
      assert Map((y: J) => Some(y), s) == Map((y: J) => Some(y), front) + [Some(last)];
    }
  }

  lemma SomesArePermuted<J(!new)>(a: seq<J>, b: seq<J>)
    requires multiset(Map((x: J) => Some(x), a)) == multiset(Map((x: J) => Some(x), b))
    ensures multiset(a) == multiset(b)
  {
    forall x: J ensures multiset(a)[x] == multiset(b)[x] {
      SomeCount(a, x);
      SomeCount(b, x);
    }
  }

  // ---------- every schedule finishes ----------

  function StepsTaken(pc: Pc): nat {
    match pc
    case Computing => 0
    case Ready => 1
    case Holding(k) => 2 + k
    case Done => 7
  }

  lemma SumUpdate<T>(f: T -> nat, s: seq<T>, i: nat, x: T)
    requires i < |s|
    ensures Sum(f, s[i := x]) + f(s[i]) == Sum(f, s) + f(x)
  {
    SumSplitAt(f, s, i);
    SumSplitAt(f, s[i := x], i);
    assert s[i := x][..i] == s[..i] && s[i := x][i + 1..] == s[i + 1..];
  }

  lemma {:induction false} StepsAreCounted<J(!new), P(!new)>(outs: seq<Output<J, P>>, f: Fan<J, P>, acts: seq<Act>, g: Fan<J, P>)
    requires |outs| == |f.pcs| && Steps(outs, f, acts, g)
    ensures Sum(StepsTaken, g.pcs) == Sum(StepsTaken, f.pcs) + |acts|
    decreases acts
  {
    if acts != [] {
      var a := acts[0];
      var next := Do(outs, f, a);
      SumUpdate(StepsTaken, f.pcs, a.w, next.pcs[a.w]);
      assert next.pcs == f.pcs[a.w := next.pcs[a.w]];
      StepsAreCounted(outs, next, acts[1..], g);
    }
  }

  lemma {:induction false} AllTaken(pcs: seq<Pc>)
    requires forall w :: 0 <= w < |pcs| ==> StepsTaken(pcs[w]) < 7 || pcs[w].Done?
    ensures Sum(StepsTaken, pcs) <= 7 * |pcs|
    ensures Sum(StepsTaken, pcs) == 7 * |pcs| <==> forall w :: 0 <= w < |pcs| ==> pcs[w].Done?
  {
    if pcs != [] { AllTaken(pcs[1..]); }
  }

  // Where not every goroutine is done, one of them can go on.
  lemma SomeoneCanGoOn<J(!new), P(!new)>(outs: seq<Output<J, P>>, f: Fan<J, P>) returns (a: Act)
    requires Inv(outs, f) && !Finished(f)
    ensures Enabled(f, a)
  {
    if f.mutex.Some? {
      var w := f.mutex.value;
      a := if f.pcs[w].appended < 4 then Append(w) else Unlock(w);
    } else {
      var w: nat :| w < |f.pcs| && !f.pcs[w].Done?;
      a := if f.pcs[w].Computing? then Compute(w) else Lock(w);
    }
  }

  lemma TakenWhenInv<J, P>(outs: seq<Output<J, P>>, f: Fan<J, P>)
    requires Inv(outs, f)
    ensures Sum(StepsTaken, f.pcs) <= 7 * |outs|
    ensures Sum(StepsTaken, f.pcs) == 7 * |outs| <==> Finished(f)
  {
    forall w | 0 <= w < |f.pcs| ensures StepsTaken(f.pcs[w]) < 7 || f.pcs[w].Done? {
      if f.pcs[w].Holding? { assert f.mutex == Some(w) && Progress(f) == f.pcs[w].appended; }
    }
    AllTaken(f.pcs);
  }

  lemma FinishedIffStuck<J(!new), P(!new)>(outs: seq<Output<J, P>>, f: Fan<J, P>)
    requires Inv(outs, f)
    ensures Finished(f) <==> forall a :: !Enabled(f, a)
  {
    if !Finished(f) {
      var a := SomeoneCanGoOn(outs, f);
    }
  }

  lemma NothingTaken<J, P>(n: nat)
    ensures |Start<J, P>(n).pcs| == n && Sum(StepsTaken, Start<J, P>(n).pcs) == 0
  {
    SumZero(StepsTaken, Start<J, P>(n).pcs);
  }

  // No schedule deadlocks and none goes on for ever: a schedule has at most seven steps a
  // goroutine, it has that many exactly when all are done, and all are done exactly when no
  // step is left to take.  So wg.Wait() returns.
  lemma EveryScheduleFinishes<J(!new), P(!new)>(outs: seq<Output<J, P>>, acts: seq<Act>, f: Fan<J, P>)
    requires Steps(outs, Start(|outs|), acts, f)
    ensures |acts| <= 7 * |outs|
    ensures Finished(f) <==> |acts| == 7 * |outs|
    ensures Finished(f) <==> forall a :: !Enabled(f, a)
  {
    ReachableSatisfiesInv(outs, f);
    NothingTaken<J, P>(|outs|);
    StepsAreCounted(outs, Start(|outs|), acts, f);
    TakenWhenInv(outs, f);
    FinishedIffStuck(outs, f);
  }

  // ---------- every order of the critical sections is possible ----------

  lemma {:induction false} StepsConcat<J(!new), P(!new)>(
    outs: seq<Output<J, P>>, f: Fan<J, P>, a: seq<Act>, g: Fan<J, P>, b: seq<Act>, h: Fan<J, P>)
    requires Steps(outs, f, a, g) && Steps(outs, g, b, h)
    ensures Steps(outs, f, a + b, h)
    decreases a
  {
    if a == [] {
      assert a + b == b;
    } else {
      assert (a + b)[1..] == a[1..] + b;
      StepsConcat(outs, Do(outs, f, a[0]), a[1..], g, b, h);
    }
  }

  lemma OneStep<J(!new), P(!new)>(outs: seq<Output<J, P>>, f: Fan<J, P>, acts: seq<Act>, g: Fan<J, P>, a: Act)
    requires Steps(outs, f, acts, g) && |outs| == |g.pcs| && Enabled(g, a)
    ensures Steps(outs, f, acts + [a], Do(outs, g, a))
  {
    var h := Do(outs, g, a);
    assert [a][1..] == [];
    assert Steps(outs, h, [], h);
    assert Steps(outs, g, [a], h);
    StepsConcat(outs, f, acts, g, [a], h);
  }

  // A free mutex lets any waiting goroutine run to its end.
  lemma RunToEnd<J(!new), P(!new)>(outs: seq<Output<J, P>>, f: Fan<J, P>, w: nat) returns (acts: seq<Act>, g: Fan<J, P>)
    requires |outs| == |f.pcs| && w < |f.pcs| && f.mutex.None? && f.pcs[w].Computing?
    ensures Steps(outs, f, acts, g)
    ensures g.pcs == f.pcs[w := Done] && g.mutex.None? && g.order == f.order + [w]
  {
    acts, g := [], f;
    OneStep(outs, f, acts, g, Compute(w));
    acts, g := acts + [Compute(w)], Do(outs, g, Compute(w));
    OneStep(outs, f, acts, g, Lock(w));
    acts, g := acts + [Lock(w)], Do(outs, g, Lock(w));
    for k := 0 to 4
      invariant Steps(outs, f, acts, g) && g.pcs == f.pcs[w := Holding(k)] && g.mutex == Some(w)
      invariant g.order == f.order + [w]
    {
      OneStep(outs, f, acts, g, Append(w));
      acts, g := acts + [Append(w)], Do(outs, g, Append(w));
    }
    OneStep(outs, f, acts, g, Unlock(w));
    acts, g := acts + [Unlock(w)], Do(outs, g, Unlock(w));
  }

  // Whatever order is asked for, running the goroutines one after another in that order is a
  // schedule that takes the mutex in it and finishes.
  lemma OrderIsReached<J(!new), P(!new)>(outs: seq<Output<J, P>>, order: seq<nat>) returns (f: Fan<J, P>)
    requires IsOrder(order, |outs|)
    ensures Reachable(outs, f) && Finished(f) && f.order == order
  {
    var start: Fan<J, P> := Start(|outs|);
    var acts: seq<Act> := [];
    PermutedIndices(order, |outs|);
    f := start;
    for i := 0 to |order|
      invariant Steps(outs, start, acts, f)
      invariant |f.pcs| == |outs| && f.mutex.None? && f.order == order[..i]
      invariant forall v :: 0 <= v < |outs| ==> f.pcs[v] == if v in order[..i] then Done else Computing
    {
      var w := order[i];
      assert w in order && w !in order[..i];
      var more, g := RunToEnd(outs, f, w);
      StepsConcat(outs, start, acts, f, more, g);
      acts, f := acts + more, g;
      assert order[..i + 1] == order[..i] + [w];
    }
    assert order[..|order|] == order;
  }

  lemma PermutedIndices(order: seq<nat>, n: nat)
    requires IsOrder(order, n)
    ensures forall w: nat :: w in order <==> w < n
    ensures forall i, j :: 0 <= i < j < |order| ==> order[i] != order[j]
  {
    var all := Indices(n);
    forall w: nat ensures w in order <==> w < n {
      if w < n { assert all[w] == w; }
      assert w in multiset(order) <==> w in multiset(all);
    }
    forall i, j | 0 <= i < j < |order| ensures order[i] != order[j] {
      if order[i] == order[j] {
        DistinctCount(all, order[i]);
        TwiceIsTwo(order, i, j);
      }
    }
  }

  lemma TwiceIsTwo(s: seq<nat>, i: nat, j: nat)
    requires i < j < |s| && s[i] == s[j]
    ensures multiset(s)[s[i]] >= 2
  {
    assert s == s[..j] + s[j..];
    assert s[i] in s[..j] && s[j] in s[j..];
    assert multiset(s)[s[i]] == multiset(s[..j])[s[i]] + multiset(s[j..])[s[i]];
  }

  // ---------- positions of an unstable sort ----------

  function Below<T>(key: T -> int, k: int): T -> bool { (x: T) => key(x) < k }
  function UpTo<T>(key: T -> int, k: int): T -> bool { (x: T) => key(x) <= k }

  // Counting alone says which elements some sort can put at position p.
  predicate Candidate<T(==)>(s: seq<T>, key: T -> int, p: nat, x: T) {
    x in s && Count(Below(key, key(x)), s) <= p < Count(UpTo(key, key(x)), s)
  }

  lemma SortedCounts<T>(r: seq<T>, key: T -> int, p: nat, k: int)
    requires p < |r| && Sorted(IntLeq, Map(key, r))
    ensures key(r[p]) >= k ==> Count(Below(key, k), r) <= p
    ensures key(r[p]) <= k ==> p < Count(UpTo(key, k), r)
    ensures key(r[p]) < k ==> p < Count(Below(key, k), r)
    ensures key(r[p]) > k ==> Count(UpTo(key, k), r) <= p
  {
    var keys := Map(key, r);
    forall i | 0 <= i < p ensures key(r[i]) <= key(r[p]) { assert IntLeq(keys[i], keys[p]); }
    forall i | p < i < |r| ensures key(r[p]) <= key(r[i]) { assert IntLeq(keys[p], keys[i]); }
    forall x | x in r[..p + 1] ensures key(x) <= key(r[p]) {}
    forall x | x in r[p..] ensures key(r[p]) <= key(x) {}
    CountSplit(Below(key, k), r, p);
    CountSplit(Below(key, k), r, p + 1);
    CountSplit(UpTo(key, k), r, p);
    CountSplit(UpTo(key, k), r, p + 1);
    CountBounds(Below(key, k), r[..p]);
    CountBounds(Below(key, k), r[p..]);
    CountBounds(Below(key, k), r[..p + 1]);
    CountBounds(UpTo(key, k), r[..p]);
    CountBounds(UpTo(key, k), r[p..]);
    CountBounds(UpTo(key, k), r[..p + 1]);
  }

  lemma SortedPicksCandidate<T>(s: seq<T>, r: seq<T>, key: T -> int, p: nat)
    requires SortedPermutation(s, r, key, IntLeq) && p < |r|
    ensures Candidate(s, key, p, r[p])
  {
    var x := r[p];
    assert x in multiset(r);
    SortedCounts(r, key, p, key(x));
    CountPermutation(Below(key, key(x)), r, s);
    CountPermutation(UpTo(key, key(x)), r, s);
  }

  lemma CandidateHasKey<T>(s: seq<T>, t: seq<T>, key: T -> int, p: nat, x: T)
    requires SortedPermutation(s, t, key, IntLeq) && p < |t| && Candidate(s, key, p, x)
    ensures key(t[p]) == key(x)
  {
    SortedCounts(t, key, p, key(x));
    CountPermutation(Below(key, key(x)), t, s);
    CountPermutation(UpTo(key, key(x)), t, s);
  }

  lemma SwapTies<T>(s: seq<T>, t: seq<T>, key: T -> int, p: nat, q: nat)
    requires SortedPermutation(s, t, key, IntLeq) && p < |t| && q < |t| && key(t[p]) == key(t[q])
    ensures SortedPermutation(s, Swapped(t, p, q), key, IntLeq)
  {
    assert Map(key, Swapped(t, p, q)) == Map(key, t);
  }

  // Any candidate is where some sort puts it: swap it there within its ties.
  lemma CandidateIsPicked<T>(s: seq<T>, key: T -> int, p: nat, x: T) returns (r: seq<T>)
    requires p < |s| && Candidate(s, key, p, x)
    ensures SortedPermutation(s, r, key, IntLeq) && p < |r| && r[p] == x
  {
    SortByKeySorts(s, key, IntLeq);
    var t := SortByKey(s, key, IntLeq);
    assert |multiset(t)| == |multiset(s)|;
    assert x in multiset(t);
    var q :| 0 <= q < |t| && t[q] == x;
    CandidateHasKey(s, t, key, p, x);
    SwapTies(s, t, key, p, q);
    r := Swapped(t, p, q);
  }

  lemma TwoTiedSortBothWays<T>(a: T, b: T, key: T -> int)
    requires key(a) == key(b)
    ensures SortedPermutation([a, b], [a, b], key, IntLeq)
    ensures SortedPermutation([a, b], [b, a], key, IntLeq)
  {
    assert [a, b] == [a] + [b] && [b, a] == [b] + [a];
  }

  function Swapped<T>(t: seq<T>, p: nat, q: nat): (r: seq<T>)
    requires p < |t| && q < |t|
    ensures |r| == |t| && r[p] == t[q] && r[q] == t[p]
    ensures forall i :: 0 <= i < |t| && i != p && i != q ==> r[i] == t[i]
    ensures multiset(r) == multiset(t)
  {
    t[p := t[q]][q := t[p]]
  }
}
