// The cronjob and job collectors as a step system: the cluster changes, a watch stream carries
// the changes, the collector applies them one transaction at a time, streams close and are
// opened again.  A fresh stream first replays every live object as an Added event: this is the
// one assumption made about the API server.  Objects live in one namespace, named uniquely.
module Watch {
  import opened Common
  import opened Objects
  import opened EventList

  datatype Conn<+P> = Closed | Open(pending: seq<Event<P>>)

  // stale: names the stored list will hold, once the open stream is drained, with no live
  // object behind them.  The last three fields are history: names deleted while no stream was
  // open, names whose Deleted event a closing stream dropped, and names stored from a bookmark
  // or error event that arrived at a missing key.
  datatype World<P> = World(
    live: map<string, Object<P>>,
    conn: Conn<P>,
    stored: Option<seq<Object<P>>>,
    stale: set<string>,
    offline: set<string>,
    dropped: set<string>,
    phantom: set<string>)

  datatype Action<P> =
    | Create(obj: Object<P>)
    | Modify(obj: Object<P>)
    | Delete(obj: Object<P>)
    | Noise(ev: Event<P>)
    | Deliver
    | Close
    | Reconnect(replay: seq<Event<P>>)

  function StoredNames<P>(stored: Option<seq<Object<P>>>): set<string> {
    match stored
    case None => {}
    case Some(items) => View(items).Keys
  }

  function DeletedNames<P>(evs: seq<Event<P>>): set<string> {
    if evs == [] then {} else
      (if evs[0].kind.Deleted? then {evs[0].obj.meta.name} else {}) + DeletedNames(evs[1..])
  }

  ghost predicate IsReplay<P>(replay: seq<Event<P>>, live: map<string, Object<P>>) {
    && (forall i :: 0 <= i < |replay| ==>
          replay[i].kind.Added? && replay[i].obj.meta.name in live && live[replay[i].obj.meta.name] == replay[i].obj)
    && (forall n :: n in live ==> exists i :: 0 <= i < |replay| && replay[i].obj.meta.name == n)
  }

  ghost predicate Enabled<P>(w: World<P>, a: Action<P>) {
    match a
    case Create(o) => o.meta.name !in w.live
    case Modify(o) => o.meta.name in w.live
    case Delete(o) => o.meta.name in w.live
    case Noise(ev) => w.conn.Open? && !IsUpsert(ev) && !ev.kind.Deleted?
    case Deliver => w.conn.Open? && w.conn.pending != []
    case Close => w.conn.Open?
    case Reconnect(replay) => w.conn.Closed? && IsReplay(replay, w.live)
  }

  function Emit<P>(c: Conn<P>, ev: Event<P>): Conn<P> {
    match c
    case Closed => Closed
    case Open(pending) => Open(pending + [ev])
  }

  function Do<P>(w: World<P>, a: Action<P>): World<P> {
    match a
    case Create(o) =>
      w.(live := w.live[o.meta.name := o], conn := Emit(w.conn, Event(Added, o)), stale := w.stale - {o.meta.name})
    case Modify(o) =>
      w.(live := w.live[o.meta.name := o], conn := Emit(w.conn, Event(Modified, o)))
    case Delete(o) =>
      w.(live := w.live - {o.meta.name}, conn := Emit(w.conn, Event(Deleted, o)),
         offline := if w.conn.Closed? then w.offline + {o.meta.name} else w.offline)
    case Noise(ev) =>
      if w.stored.None? && w.conn == Open([])
      then w.(conn := Emit(w.conn, ev), stale := {ev.obj.meta.name}, phantom := w.phantom + {ev.obj.meta.name})
      else w.(conn := Emit(w.conn, ev))
    case Deliver =>
      if w.conn.Open? && w.conn.pending != []
      then w.(conn := Open(w.conn.pending[1..]), stored := Some(NextList(w.stored, w.conn.pending[0])))
      else w
    case Close =>
      if w.conn.Open?
      then w.(conn := Closed, dropped := w.dropped + DeletedNames(w.conn.pending))
      else w
    case Reconnect(replay) =>
      w.(conn := Open(replay), stale := StoredNames(w.stored) - w.live.Keys)
  }

  function Run<P>(w: World<P>, acts: seq<Action<P>>): World<P>
    decreases acts
  {
    if acts == [] then w else Run(Do(w, acts[0]), acts[1..])
  }

  ghost predicate AllEnabled<P>(w: World<P>, acts: seq<Action<P>>)
    decreases acts
  {
    acts == [] || (Enabled(w, acts[0]) && AllEnabled(Do(w, acts[0]), acts[1..]))
  }

  // ---------- the invariant ----------

  predicate NamedByKey<P>(live: map<string, Object<P>>) {
    forall n :: n in live ==> live[n].meta.name == n
  }

  // What the store will hold once everything pending has been applied.
  ghost predicate Settles<P>(w: World<P>, m: Option<map<string, Object<P>>>) {
    match m
    case None => w.live == map[] && w.stale == {}
    case Some(m) =>
      && m.Keys == w.live.Keys + w.stale
      && w.live.Keys !! w.stale
      && (forall n :: n in w.live ==> m[n] == w.live[n])
  }

  function Excuses<P>(w: World<P>, initial: set<string>): set<string> {
    initial + w.offline + w.dropped + w.phantom
  }

  ghost predicate Inv<P>(w: World<P>, initial: set<string>) {
    && NamedByKey(w.live)
    && UniqueOption(w.stored)
    && (w.conn.Closed? ==> StoredNames(w.stored) <= w.live.Keys + Excuses(w, initial))
    && (w.conn.Open? ==>
          && Settles(w, FoldMap(ViewOption(w.stored), w.conn.pending))
          && (forall n :: n in w.stale ==> Untouched(w.conn.pending, n))
          && w.stale <= Excuses(w, initial))
  }

  ghost predicate Init<P>(w: World<P>) {
    && NamedByKey(w.live)
    && w.conn.Closed?
    && UniqueOption(w.stored)
    && w.offline == w.dropped == w.phantom == {}
  }

  lemma {:induction false} FoldMapAppend<P>(m: Option<map<string, Object<P>>>, evs: seq<Event<P>>, ev: Event<P>)
    ensures FoldMap(m, evs + [ev]) == Some(NextMap(FoldMap(m, evs), ev))
    decreases evs
  {
    if evs == [] {
      assert [ev][1..] == [];
      assert evs + [ev] == [ev];
    } else {
      assert (evs + [ev])[1..] == evs[1..] + [ev];
      FoldMapAppend(Some(NextMap(m, evs[0])), evs[1..], ev);
    }
  }

  // A stored name that the pending events remove has a Deleted event among them.
  lemma {:induction false} NameSurvivesOrIsDeleted<P>(m: map<string, Object<P>>, evs: seq<Event<P>>, n: string)
    requires n in m
    ensures n in DeletedNames(evs) || (FoldMap(Some(m), evs).Some? && n in FoldMap(Some(m), evs).value)
    decreases evs
  {
    if evs != [] {
      var next := NextMap(Some(m), evs[0]);
      if n in next {
        NameSurvivesOrIsDeleted(next, evs[1..], n);
      }
    }
  }

  // Replaying the live objects brings every one of them to its current version.
  lemma {:induction false} ReplayCovers<P>(m: map<string, Object<P>>, replay: seq<Event<P>>, live: map<string, Object<P>>)
    requires forall i :: 0 <= i < |replay| ==>
      replay[i].kind.Added? && replay[i].obj.meta.name in live && live[replay[i].obj.meta.name] == replay[i].obj
    ensures FoldMap(Some(m), replay).Some?
    ensures var r := FoldMap(Some(m), replay).value;
      && m.Keys <= r.Keys <= m.Keys + live.Keys
      && (forall i :: 0 <= i < |replay| ==> replay[i].obj.meta.name in r)
      && (forall n :: n in r ==> (n in m && r[n] == m[n]) || (n in live && r[n] == live[n]))
      && (forall n :: n in m && n in live && m[n] == live[n] ==> r[n] == live[n])
      && (forall i :: 0 <= i < |replay| ==> r[replay[i].obj.meta.name] == replay[i].obj)
    decreases replay
  {
    if replay != [] {
      var o := replay[0].obj;
      var next := m[o.meta.name := o];
      ReplayCovers(next, replay[1..], live);
      var r := FoldMap(Some(next), replay[1..]).value;
      assert FoldMap(Some(m), replay) == Some(r);
      forall i | 0 <= i < |replay| ensures replay[i].obj.meta.name in r && r[replay[i].obj.meta.name] == replay[i].obj {
        if i > 0 { assert replay[i] == replay[1..][i - 1]; }
      }
    }
  }

  // Into a missing key the replay stores the live objects, as it would into an empty list.
  lemma ReplayIntoNothing<P>(replay: seq<Event<P>>, live: map<string, Object<P>>)
    requires IsReplay(replay, live) && replay != []
    ensures FoldMap(None, replay) == Some(live)
  {
    var o, empty: map<string, Object<P>> := replay[0].obj, map[];
    assert empty[o.meta.name := o] == map[o.meta.name := o];
    assert FoldMap(None, replay) == FoldMap(Some(empty), replay);
    ReplayCovers(empty, replay, live);
    var r := FoldMap(Some(empty), replay).value;
    forall n | n in live ensures n in r {
      var i :| 0 <= i < |replay| && replay[i].obj.meta.name == n;
    }
    assert r == live;
  }

  lemma ReplaySettles<P>(w: World<P>, replay: seq<Event<P>>)
    requires w.conn.Closed? && IsReplay(replay, w.live)
    ensures Settles(Do(w, Reconnect(replay)), FoldMap(ViewOption(w.stored), replay))
  {
    if w.stored.Some? {
      ReplayCovers(View(w.stored.value), replay, w.live);
    } else if replay != [] {
      ReplayIntoNothing(replay, w.live);
    } else {
      assert forall n :: n !in w.live;
    }
  }

  lemma EmitSettles<P>(w: World<P>, a: Action<P>, ev: Event<P>)
    requires w.conn.Open? && NamedByKey(w.live) && Enabled(w, a)
    requires Settles(w, FoldMap(ViewOption(w.stored), w.conn.pending))
    requires (a.Create? && ev == Event(Added, a.obj)) || (a.Modify? && ev == Event(Modified, a.obj))
          || (a.Delete? && ev == Event(Deleted, a.obj)) || (a.Noise? && ev == a.ev)
    ensures Settles(Do(w, a), FoldMap(ViewOption(w.stored), w.conn.pending + [ev]))
  {
    var before := FoldMap(ViewOption(w.stored), w.conn.pending);
    FoldMapAppend(ViewOption(w.stored), w.conn.pending, ev);
    if before.Some? {
      var m, n := NextMap(before, ev), ev.obj.meta.name;
      if IsUpsert(ev) {
        assert m.Keys == before.value.Keys + {n};
      } else if ev.kind.Deleted? {
        assert m.Keys == before.value.Keys - {n};
        assert n !in w.stale;
      }
    } else {
      assert a.Create? ==> w.live[ev.obj.meta.name := ev.obj] == map[ev.obj.meta.name := ev.obj];
      assert a.Noise? ==> w.stored.None? && w.conn.pending == [];
    }
  }

  lemma DeliverSettles<P>(w: World<P>)
    requires Enabled(w, Deliver) && UniqueOption(w.stored)
    ensures UniqueOption(Do(w, Deliver).stored)
    ensures FoldMap(ViewOption(Do(w, Deliver).stored), Do(w, Deliver).conn.pending)
         == FoldMap(ViewOption(w.stored), w.conn.pending)
  {
    NextRefinesMap(w.stored, w.conn.pending[0]);
  }

  lemma CloseExcuses<P>(w: World<P>, initial: set<string>)
    requires Inv(w, initial) && w.conn.Open?
    ensures StoredNames(w.stored) <= w.live.Keys + Excuses(Do(w, Close), initial)
  {
    forall n | n in StoredNames(w.stored) ensures n in w.live.Keys + Excuses(Do(w, Close), initial) {
      NameSurvivesOrIsDeleted(View(w.stored.value), w.conn.pending, n);
    }
  }

  // Every step keeps the invariant.
  lemma StepKeepsInv<P>(w: World<P>, a: Action<P>, initial: set<string>)
    requires Inv(w, initial) && Enabled(w, a)
    ensures Inv(Do(w, a), initial)
  {
    match a
    case Create(o) => if w.conn.Open? { EmitSettles(w, a, Event(Added, o)); }
    case Modify(o) => if w.conn.Open? { EmitSettles(w, a, Event(Modified, o)); }
    case Delete(o) => if w.conn.Open? { EmitSettles(w, a, Event(Deleted, o)); }
    case Noise(ev) => EmitSettles(w, a, ev);
    case Deliver => DeliverSettles(w);
    case Close => CloseExcuses(w, initial);
    case Reconnect(replay) => ReplaySettles(w, replay);
  }

  lemma {:induction false} RunKeepsInv<P>(w: World<P>, acts: seq<Action<P>>, initial: set<string>)
    requires Inv(w, initial) && AllEnabled(w, acts)
    ensures Inv(Run(w, acts), initial)
    decreases acts
  {
    if acts != [] {
      StepKeepsInv(w, acts[0], initial);
      RunKeepsInv(Do(w, acts[0]), acts[1..], initial);
    }
  }

  // Convergence, for every run from any store with unique names: names stay unique, and once
  // the open stream is drained the stored names are exactly the live ones and the stale ones,
  // every live object is stored at its current version, and a stale name was in the initial
  // store, was deleted with no stream open, lost its Deleted event to a closing stream, or came
  // from a bookmark or error event.
  lemma Converges<P>(w: World<P>, acts: seq<Action<P>>)
    requires Init(w) && AllEnabled(w, acts)
    ensures var e := Run(w, acts);
      && UniqueOption(e.stored)
      && (e.conn == Open([]) ==>
            && StoredNames(e.stored) == e.live.Keys + e.stale
            && e.live.Keys !! e.stale
            && (forall n :: n in e.live ==> View(e.stored.value)[n] == e.live[n])
            && e.stale <= StoredNames(w.stored) + e.offline + e.dropped + e.phantom)
  {
    RunKeepsInv(w, acts, StoredNames(w.stored));
  }

  lemma RunFirst<P>(w: World<P>, a: Action<P>, acts: seq<Action<P>>)
    requires Enabled(w, a) && AllEnabled(Do(w, a), acts)
    ensures AllEnabled(w, [a] + acts) && Run(w, [a] + acts) == Run(Do(w, a), acts)
  {
    assert ([a] + acts)[1..] == acts;
  }

  // ---------- draining, and what no reconnect repairs ----------

  function Delivers<P>(n: nat): seq<Action<P>> {
    if n == 0 then [] else [Deliver] + Delivers(n - 1)
  }

  // An open stream can always be drained, and the store is then the fold of its events.
  lemma {:induction false} DrainAppliesAll<P>(w: World<P>)
    requires w.conn.Open?
    ensures AllEnabled(w, Delivers(|w.conn.pending|))
    ensures Run(w, Delivers(|w.conn.pending|))
         == w.(conn := Open([]), stored := FoldEvents(w.stored, w.conn.pending))
    decreases |w.conn.pending|
  {
    var n := |w.conn.pending|;
    if n > 0 {
      assert Delivers<P>(n)[1..] == Delivers(n - 1);
      DrainAppliesAll(Do(w, Deliver));
    }
  }

  // The events a run delivers to the collector.
  function Delivered<P>(w: World<P>, acts: seq<Action<P>>): seq<Event<P>>
    decreases acts
  {
    if acts == [] then [] else
      (if acts[0].Deliver? && w.conn.Open? && w.conn.pending != [] then [w.conn.pending[0]] else [])
      + Delivered(Do(w, acts[0]), acts[1..])
  }

  // Nothing but deliveries changes the store.
  lemma {:induction false} StoredIsFoldOfDelivered<P>(w: World<P>, acts: seq<Action<P>>)
    ensures Run(w, acts).stored == FoldEvents(w.stored, Delivered(w, acts))
    decreases acts
  {
    if acts != [] {
      StoredIsFoldOfDelivered(Do(w, acts[0]), acts[1..]);
      if acts[0].Deliver? && w.conn.Open? && w.conn.pending != [] {
        var rest := Delivered(Do(w, acts[0]), acts[1..]);
        assert ([w.conn.pending[0]] + rest)[1..] == rest;
      } else {
        assert Delivered(w, acts) == Delivered(Do(w, acts[0]), acts[1..]);
      }
    }
  }

  // ---------- extra names: where they come from, and that no reconnect repairs them ----------

  // A stored name with no live object, and no event on its way that would remove it.
  ghost predicate Orphan<P>(w: World<P>, n: string) {
    && n !in w.live && n in StoredNames(w.stored)
    && (w.conn.Open? ==> Untouched(w.conn.pending, n))
  }

  // The three steps that orphan a name: its object is deleted while no stream is open, a
  // closing stream drops its Deleted event, or a bookmark or error event is stored at a
  // missing key.
  ghost predicate Strands<P>(w: World<P>, a: Action<P>, n: string) {
    match a
    case Delete(o) => w.conn.Closed? && o.meta.name == n && n in StoredNames(w.stored)
    case Close => DropsDeletion(w, n)
    case Deliver => StoresPhantom(w, n)
    case _ => false
  }

  ghost predicate DropsDeletion<P>(w: World<P>, n: string) {
    w.conn.Open? && n in DeletedNames(w.conn.pending) && n in StoredNames(w.stored) && n !in w.live
  }

  ghost predicate StoresPhantom<P>(w: World<P>, n: string) {
    && w.stored.None? && w.conn.Open? && w.conn.pending != []
    && w.conn.pending[0].obj.meta.name == n && Untouched(w.conn.pending, n) && n !in w.live
  }

  predicate Creates<P>(a: Action<P>, n: string) { a.Create? && a.obj.meta.name == n }

  lemma {:induction false} DeletedNameIsTouched<P>(evs: seq<Event<P>>, n: string)
    requires n in DeletedNames(evs)
    ensures !Untouched(evs, n)
  {
    UntouchedFirst(evs, n);
    if !Touches(evs[0], n) { DeletedNameIsTouched(evs[1..], n); }
  }

  // A name no event touches keeps its place in the map.
  lemma {:induction false} UntouchedStays<P>(m: map<string, Object<P>>, evs: seq<Event<P>>, n: string)
    requires Untouched(evs, n)
    ensures FoldMap(Some(m), evs).Some? && (n in m <==> n in FoldMap(Some(m), evs).value)
    decreases evs
  {
    if evs != [] {
      UntouchedFirst(evs, n);
      UntouchedStays(NextMap(Some(m), evs[0]), evs[1..], n);
    }
  }

  lemma DeliverOrphansIff<P>(w: World<P>, n: string, initial: set<string>)
    requires Inv(w, initial) && Enabled(w, Deliver)
    ensures Orphan(Do(w, Deliver), n) <==> Orphan(w, n) || StoresPhantom(w, n)
  {
    var first, rest := w.conn.pending[0], w.conn.pending[1..];
    UntouchedFirst(w.conn.pending, n);
    NextRefinesMap(w.stored, first);
    if Untouched(rest, n) && n !in w.live {
      UntouchedStays(NextMap(ViewOption(w.stored), first), rest, n);
    }
  }

  lemma CloseOrphansIff<P>(w: World<P>, n: string, initial: set<string>)
    requires Inv(w, initial) && Enabled(w, Close)
    ensures Orphan(Do(w, Close), n) <==> Orphan(w, n) || DropsDeletion(w, n)
  {
    if n in StoredNames(w.stored) && n !in w.live && !Untouched(w.conn.pending, n) {
      NameSurvivesOrIsDeleted(View(w.stored.value), w.conn.pending, n);
    }
    if n in DeletedNames(w.conn.pending) { DeletedNameIsTouched(w.conn.pending, n); }
  }

  lemma AppendTouches<P>(evs: seq<Event<P>>, ev: Event<P>, n: string)
    ensures Untouched(evs + [ev], n) <==> Untouched(evs, n) && !Touches(ev, n)
  {
    var all := evs + [ev];
    assert all[|evs|] == ev;
    if Untouched(all, n) {
      forall i | 0 <= i < |evs| ensures !Touches(evs[i], n) { assert all[i] == evs[i]; }
    }
  }

  lemma EmitOrphansIff<P>(w: World<P>, a: Action<P>, n: string, initial: set<string>)
    requires Inv(w, initial) && Enabled(w, a) && (a.Create? || a.Modify? || a.Delete? || a.Noise?)
    ensures Orphan(Do(w, a), n) <==> (Orphan(w, n) && !Creates(a, n)) || Strands(w, a, n)
  {
    if w.conn.Open? {
      match a
      case Create(o) => AppendTouches(w.conn.pending, Event(Added, o), n);
      case Modify(o) => AppendTouches(w.conn.pending, Event(Modified, o), n);
      case Delete(o) => AppendTouches(w.conn.pending, Event(Deleted, o), n);
      case Noise(ev) => AppendTouches(w.conn.pending, ev, n);
    }
  }

  // One step: orphans stay orphans until they are created again, and new ones are stranded.
  lemma OrphanStepIff<P>(w: World<P>, a: Action<P>, n: string, initial: set<string>)
    requires Inv(w, initial) && Enabled(w, a)
    ensures Orphan(Do(w, a), n) <==> (Orphan(w, n) && !Creates(a, n)) || Strands(w, a, n)
  {
    match a
    case Deliver => DeliverOrphansIff(w, n, initial);
    case Close => CloseOrphansIff(w, n, initial);
    case Reconnect(replay) =>
    case _ => EmitOrphansIff(w, a, n, initial);
  }

  predicate NotCreatedFrom<P>(acts: seq<Action<P>>, k: nat, n: string) {
    forall i :: k <= i < |acts| ==> !Creates(acts[i], n)
  }

  // Step k of the run orphaned the name and no later step created it again.
  ghost predicate StrandedAt<P>(w: World<P>, acts: seq<Action<P>>, k: nat, n: string) {
    k < |acts| && Strands(Run(w, acts[..k]), acts[k], n) && NotCreatedFrom(acts, k + 1, n)
  }

  lemma {:induction false} RunConcat<P>(w: World<P>, a: seq<Action<P>>, b: seq<Action<P>>)
    ensures Run(w, a + b) == Run(Run(w, a), b)
    ensures AllEnabled(w, a + b) <==> AllEnabled(w, a) && AllEnabled(Run(w, a), b)
    decreases a
  {
    if a == [] {
      assert a + b == b;
    } else {
      assert (a + b)[1..] == a[1..] + b;
      RunConcat(Do(w, a[0]), a[1..], b);
    }
  }

  lemma RunLast<P>(w: World<P>, acts: seq<Action<P>>)
    requires acts != [] && AllEnabled(w, acts)
    ensures var front, a := acts[..|acts| - 1], acts[|acts| - 1];
      AllEnabled(w, front) && Enabled(Run(w, front), a) && Run(w, acts) == Do(Run(w, front), a)
  {
    var front, a := acts[..|acts| - 1], acts[|acts| - 1];
    assert acts == front + [a];
    RunConcat(w, front, [a]);
    assert [a][1..] == [];
    assert Run(Run(w, front), [a]) == Run(Do(Run(w, front), a), []);
  }

  lemma StrandedInFront<P>(w: World<P>, acts: seq<Action<P>>, n: string)
    requires acts != []
    ensures var front, a := acts[..|acts| - 1], acts[|acts| - 1];
      (exists k: nat :: StrandedAt(w, acts, k, n)) <==>
        ((exists k: nat :: StrandedAt(w, front, k, n)) && !Creates(a, n)) || Strands(Run(w, front), a, n)
  {
    var front, a := acts[..|acts| - 1], acts[|acts| - 1];
    if k: nat :| StrandedAt(w, acts, k, n) && k < |front| {
      assert front[..k] == acts[..k] && front[k] == acts[k];
      assert !Creates(acts[|acts| - 1], n);
      assert StrandedAt(w, front, k, n);
    }
    if k: nat :| StrandedAt(w, front, k, n) && !Creates(a, n) {
      assert front[..k] == acts[..k] && front[k] == acts[k];
      assert forall i :: k + 1 <= i < |acts| ==> acts[i] == if i < |front| then front[i] else a;
      assert StrandedAt(w, acts, k, n);
    }
    if Strands(Run(w, front), a, n) {
      assert acts[..|front|] == front;
      assert StrandedAt(w, acts, |front|, n);
    }
  }

  lemma NotCreatedInFront<P>(acts: seq<Action<P>>, n: string)
    requires acts != []
    ensures var front, a := acts[..|acts| - 1], acts[|acts| - 1];
      NotCreatedFrom(acts, 0, n) <==> NotCreatedFrom(front, 0, n) && !Creates(a, n)
  {
    var front, a := acts[..|acts| - 1], acts[|acts| - 1];
    assert forall i :: 0 <= i < |acts| ==> acts[i] == if i < |front| then front[i] else a;
  }

  // Every run: a name is an orphan at the end if and only if it was one at the start or some
  // step orphaned it, and it was not created since.  No delivery, close or reconnect repairs it.
  lemma {:induction false} OrphansIff<P>(w: World<P>, acts: seq<Action<P>>, n: string, initial: set<string>)
    requires Inv(w, initial) && AllEnabled(w, acts)
    ensures Orphan(Run(w, acts), n) <==>
      (Orphan(w, n) && NotCreatedFrom(acts, 0, n)) || exists k: nat :: StrandedAt(w, acts, k, n)
  {
    if acts != [] {
      var front, a := acts[..|acts| - 1], acts[|acts| - 1];
      RunLast(w, acts);
      OrphansIff(w, front, n, initial);
      RunKeepsInv(w, front, initial);
      OrphanStepIff(Run(w, front), a, n, initial);
      StrandedInFront(w, acts, n);
      NotCreatedInFront(acts, n);
    }
  }

  ghost predicate Extra<P>(w: World<P>, n: string) { n in StoredNames(w.stored) && n !in w.live }

  // Every run that ends with a drained stream: a name is extra if and only if the store began
  // with it and no live object, or a step of the run stranded it, and it was not created since.
  lemma ExtrasIff<P>(w: World<P>, acts: seq<Action<P>>, n: string)
    requires Init(w) && AllEnabled(w, acts) && Run(w, acts).conn == Open([])
    ensures Extra(Run(w, acts), n) <==>
      (Extra(w, n) && NotCreatedFrom(acts, 0, n)) || exists k: nat :: StrandedAt(w, acts, k, n)
  {
    OrphansIff(w, acts, n, StoredNames(w.stored));
  }

  lemma OrphanStep<P>(w: World<P>, a: Action<P>, n: string)
    requires UniqueOption(w.stored) && NamedByKey(w.live) && Orphan(w, n) && Enabled(w, a)
    requires a.Create? ==> a.obj.meta.name != n
    ensures Orphan(Do(w, a), n)
    ensures UniqueOption(Do(w, a).stored) && NamedByKey(Do(w, a).live)
  {
    if a.Deliver? {
      UntouchedFirst(w.conn.pending, n);
      NextRefinesMap(w.stored, w.conn.pending[0]);
    }
  }

  // A stored name with no live object and no event on its way stays stored for ever: no
  // delivery, close or reconnect removes it until an object of that name is created again.
  lemma {:induction false} OrphansAreNeverRepaired<P>(w: World<P>, acts: seq<Action<P>>, n: string)
    requires UniqueOption(w.stored) && NamedByKey(w.live) && Orphan(w, n) && AllEnabled(w, acts)
    requires forall i :: 0 <= i < |acts| && acts[i].Create? ==> acts[i].obj.meta.name != n
    ensures n in StoredNames(Run(w, acts).stored) && n !in Run(w, acts).live
    decreases acts
  {
    if acts != [] {
      OrphanStep(w, acts[0], n);
      OrphansAreNeverRepaired(Do(w, acts[0]), acts[1..], n);
    }
  }

  // ---------- the same, seen from the last opening ----------

  predicate IsLastOpening<P>(acts: seq<Action<P>>, k: nat) {
    k < |acts| && acts[k].Reconnect? && forall i :: k < i < |acts| ==> !acts[i].Reconnect?
  }

  lemma {:induction false} ClosedStaysClosed<P>(w: World<P>, acts: seq<Action<P>>)
    requires w.conn.Closed? && AllEnabled(w, acts) && forall i :: 0 <= i < |acts| ==> !acts[i].Reconnect?
    ensures Run(w, acts).conn.Closed?
    decreases acts
  {
    if acts != [] { ClosedStaysClosed(Do(w, acts[0]), acts[1..]); }
  }

  // An open stream that ends open with no opening in between was never closed.
  lemma StaysOpen<P>(w: World<P>, acts: seq<Action<P>>, i: nat)
    requires w.conn.Open? && AllEnabled(w, acts) && Run(w, acts).conn.Open? && i <= |acts|
    requires forall j :: 0 <= j < |acts| ==> !acts[j].Reconnect?
    ensures Run(w, acts[..i]).conn.Open?
  {
    assert acts == acts[..i] + acts[i..];
    RunConcat(w, acts[..i], acts[i..]);
    if Run(w, acts[..i]).conn.Closed? { ClosedStaysClosed(Run(w, acts[..i]), acts[i..]); }
  }

  // Step k delivered a bookmark or error event at a missing key, and its name was not created
  // since.
  ghost predicate PhantomAt<P>(w: World<P>, acts: seq<Action<P>>, k: nat, n: string) {
    k < |acts| && acts[k].Deliver? && StoresPhantom(Run(w, acts[..k]), n) && NotCreatedFrom(acts, k + 1, n)
  }

  lemma StrandedIsPhantom<P>(w: World<P>, acts: seq<Action<P>>, k: nat, n: string)
    requires AllEnabled(w, acts) && w.conn.Open? && Run(w, acts).conn.Open?
    requires forall j :: 0 <= j < |acts| ==> !acts[j].Reconnect?
    requires StrandedAt(w, acts, k, n)
    ensures PhantomAt(w, acts, k, n)
  {
    StaysOpen(w, acts, k);
    StaysOpen(w, acts, k + 1);
    RunNext(w, acts, k);
  }

  lemma RunNext<P>(w: World<P>, acts: seq<Action<P>>, k: nat)
    requires AllEnabled(w, acts) && k < |acts|
    ensures Run(w, acts[..k + 1]) == Do(Run(w, acts[..k]), acts[k])
  {
    var before := acts[..k + 1];
    assert acts == before + acts[k + 1..] && before[..k] == acts[..k];
    RunConcat(w, before, acts[k + 1..]);
    RunLast(w, before);
  }

  // While one stream is open the only new orphans are phantoms.
  lemma OrphansOfOneStream<P>(w: World<P>, acts: seq<Action<P>>, n: string, initial: set<string>)
    requires Inv(w, initial) && AllEnabled(w, acts) && w.conn.Open? && Run(w, acts).conn.Open?
    requires forall j :: 0 <= j < |acts| ==> !acts[j].Reconnect?
    ensures Orphan(Run(w, acts), n) <==>
      (Orphan(w, n) && NotCreatedFrom(acts, 0, n)) || exists k: nat :: PhantomAt(w, acts, k, n)
  {
    OrphansIff(w, acts, n, initial);
    if k: nat :| StrandedAt(w, acts, k, n) {
      StrandedIsPhantom(w, acts, k, n);
    }
    if k: nat :| PhantomAt(w, acts, k, n) {
      assert StrandedAt(w, acts, k, n);
    }
  }

  // Opening a stream turns what the listing lacks into orphans.
  lemma JustOpened<P>(w: World<P>, acts: seq<Action<P>>, k: nat, n: string)
    requires Init(w) && AllEnabled(w, acts) && k < |acts| && acts[k].Reconnect?
    ensures AllEnabled(w, acts[..k + 1]) && AllEnabled(Run(w, acts[..k + 1]), acts[k + 1..])
    ensures Run(w, acts) == Run(Run(w, acts[..k + 1]), acts[k + 1..])
    ensures Inv(Run(w, acts[..k + 1]), StoredNames(w.stored)) && Run(w, acts[..k + 1]).conn.Open?
    ensures Orphan(Run(w, acts[..k + 1]), n) <==> Extra(Run(w, acts[..k]), n)
  {
    var before, after := acts[..k + 1], acts[k + 1..];
    assert acts == before + after && before[..k] == acts[..k] && before[k] == acts[k];
    RunConcat(w, before, after);
    RunLast(w, before);
    RunKeepsInv(w, before[..k], StoredNames(w.stored));
    RunKeepsInv(w, before, StoredNames(w.stored));
    OrphanStepIff(Run(w, before[..k]), acts[k], n, StoredNames(w.stored));
  }

  // Every run that ends with a drained stream, seen from the opening of that stream: the extra
  // names are the stored names that were missing from the listing the stream began with, and
  // the phantoms stored since, less those created since.
  lemma ExtrasSinceLastOpening<P>(w: World<P>, acts: seq<Action<P>>, k: nat, n: string)
    requires Init(w) && AllEnabled(w, acts) && Run(w, acts).conn == Open([]) && IsLastOpening(acts, k)
    ensures Extra(Run(w, acts), n) <==>
      || (Extra(Run(w, acts[..k]), n) && NotCreatedFrom(acts, k, n))
      || exists i: nat :: k < i && PhantomAt(w, acts, i, n)
  {
    JustOpened(w, acts, k, n);
    OrphansOfOneStream(Run(w, acts[..k + 1]), acts[k + 1..], n, StoredNames(w.stored));
    ShiftNotCreated(acts, k + 1, 0, n);
    assert NotCreatedFrom(acts, k, n) <==> NotCreatedFrom(acts, k + 1, n);
    PhantomsShift(w, acts, k + 1, n);
  }

  lemma ShiftNotCreated<P>(acts: seq<Action<P>>, k: nat, i: nat, n: string)
    requires k <= |acts|
    ensures NotCreatedFrom(acts[k..], i, n) <==> NotCreatedFrom(acts, k + i, n)
  {
    var after := acts[k..];
    if NotCreatedFrom(after, i, n) {
      forall j | k + i <= j < |acts| ensures !Creates(acts[j], n) { assert acts[j] == after[j - k]; }
    }
    if NotCreatedFrom(acts, k + i, n) {
      forall j | i <= j < |after| ensures !Creates(after[j], n) { assert after[j] == acts[j + k]; }
    }
  }

  lemma PhantomShift<P>(w: World<P>, acts: seq<Action<P>>, k: nat, i: nat, n: string)
    requires k <= |acts|
    ensures PhantomAt(Run(w, acts[..k]), acts[k..], i, n) <==> PhantomAt(w, acts, k + i, n)
  {
    var after := acts[k..];
    if i < |after| {
      assert acts[..k + i] == acts[..k] + after[..i];
      RunConcat(w, acts[..k], after[..i]);
      ShiftNotCreated(acts, k, i + 1, n);
    }
  }

  lemma PhantomsShift<P>(w: World<P>, acts: seq<Action<P>>, k: nat, n: string)
    requires k <= |acts|
    ensures (exists i: nat :: PhantomAt(Run(w, acts[..k]), acts[k..], i, n)) <==>
            (exists i: nat :: k <= i && PhantomAt(w, acts, i, n))
  {
    if i: nat :| PhantomAt(Run(w, acts[..k]), acts[k..], i, n) {
      PhantomShift(w, acts, k, i, n);
    }
    if i: nat :| k <= i && PhantomAt(w, acts, i, n) {
      PhantomShift(w, acts, k, i - k, n);
    }
  }

  // ---------- when the extras are the initial and the offline names only ----------

  // Whatever was stored without a live object when the stream was opened, or since as a phantom,
  // and not created since, is an initial name or was deleted while no stream was open.  The first
  // half compares the stored list with the listing of the opening.
  ghost predicate LosesNothing<P>(w: World<P>, acts: seq<Action<P>>, k: nat, excused: set<string>)
    requires k < |acts|
  {
    && (forall n :: Extra(Run(w, acts[..k]), n) && NotCreatedFrom(acts, k, n) ==> n in excused)
    && (forall n, i: nat :: k < i && PhantomAt(w, acts, i, n) ==> n in excused)
  }

  // The extras are initial names and names deleted while no stream was open, and no others, if
  // and only if nothing else was lost.
  lemma ConvergesWithoutLoss<P>(w: World<P>, acts: seq<Action<P>>, k: nat)
    requires Init(w) && AllEnabled(w, acts) && Run(w, acts).conn == Open([]) && IsLastOpening(acts, k)
    ensures var e := Run(w, acts);
      LosesNothing(w, acts, k, StoredNames(w.stored) + e.offline) <==>
        StoredNames(e.stored) - e.live.Keys <= StoredNames(w.stored) + e.offline
  {
    var e := Run(w, acts);
    var extras, excused := StoredNames(e.stored) - e.live.Keys, StoredNames(w.stored) + e.offline;
    forall n ensures n in extras <==> Extra(e, n) {}
    forall n ensures Extra(e, n) <==>
      || (Extra(Run(w, acts[..k]), n) && NotCreatedFrom(acts, k, n))
      || exists i: nat :: k < i && PhantomAt(w, acts, i, n)
    {
      ExtrasSinceLastOpening(w, acts, k, n);
    }
  }

  // Step k lost the removal of the name for good: a close dropped its Deleted event, or a
  // bookmark or error event was stored.
  ghost predicate LostAt<P>(w: World<P>, acts: seq<Action<P>>, k: nat, n: string) {
    StrandedAt(w, acts, k, n) && !acts[k].Delete?
  }

  lemma {:induction false} OfflineGrows<P>(w: World<P>, acts: seq<Action<P>>)
    ensures w.offline <= Run(w, acts).offline
    decreases acts
  {
    if acts != [] { OfflineGrows(Do(w, acts[0]), acts[1..]); }
  }

  lemma StrandedOfflineIsOffline<P>(w: World<P>, acts: seq<Action<P>>, k: nat, n: string)
    requires StrandedAt(w, acts, k, n) && acts[k].Delete?
    ensures n in Run(w, acts).offline
  {
    assert acts == acts[..k] + acts[k..];
    RunConcat(w, acts[..k], acts[k..]);
    OfflineGrows(Do(Run(w, acts[..k]), acts[k]), acts[k..][1..]);
  }

  // The same condition by its causes: a name lost by a close or a bookmark and not created
  // again is one of those names anyway.
  lemma ExtrasAreExcusedIff<P>(w: World<P>, acts: seq<Action<P>>)
    requires Init(w) && AllEnabled(w, acts) && Run(w, acts).conn == Open([])
    ensures var e := Run(w, acts);
      (forall k: nat, n :: LostAt(w, acts, k, n) ==> n in StoredNames(w.stored) + e.offline) <==>
        StoredNames(e.stored) - e.live.Keys <= StoredNames(w.stored) + e.offline
  {
    var e := Run(w, acts);
    var extras, excused := StoredNames(e.stored) - e.live.Keys, StoredNames(w.stored) + e.offline;
    forall n ensures n in extras <==>
      (Extra(w, n) && NotCreatedFrom(acts, 0, n)) || exists k: nat :: StrandedAt(w, acts, k, n)
    {
      ExtrasIff(w, acts, n);
    }
    forall k: nat, n | StrandedAt(w, acts, k, n) && acts[k].Delete? ensures n in excused {
      StrandedOfflineIsOffline(w, acts, k, n);
    }
    if forall k: nat, n :: LostAt(w, acts, k, n) ==> n in excused {
      forall n | n in extras ensures n in excused {
        if k: nat :| StrandedAt(w, acts, k, n) {
          assert acts[k].Delete? || LostAt(w, acts, k, n);
        }
      }
    }
    if extras <= excused {
      forall k: nat, n | LostAt(w, acts, k, n) ensures n in excused {
        assert StrandedAt(w, acts, k, n);
        assert n in extras;
      }
    }
  }

  // ---------- a run that does lose a name ----------

  // One object, created before the stream opens and stored.
  function FirstSeen<P>(o: Object<P>): World<P> {
    World(map[o.meta.name := o], Open([]), Some([o]), {}, {}, {}, {})
  }

  lemma FirstDelivery<P>(o: Object<P>)
    ensures var w := World(map[o.meta.name := o], Closed, None, {}, {}, {}, {});
      && AllEnabled(w, [Reconnect([Event(Added, o)]), Deliver])
      && Run(w, [Reconnect([Event(Added, o)]), Deliver]) == FirstSeen(o)
  {
    var w := World(map[o.meta.name := o], Closed, None, {}, {}, {}, {});
    var replay := [Event(Added, o)];
    assert replay[0].obj.meta.name == o.meta.name;
    var w1 := Do(w, Reconnect(replay));
    assert w1 == World(map[o.meta.name := o], Open(replay), None, {}, {}, {}, {});
    assert replay[1..] == [] && Do(w1, Deliver) == FirstSeen(o);
    var rest: seq<Action<P>> := [Deliver];
    assert rest == [Deliver] + [];
    RunFirst(w1, Deliver, []);
    RunFirst(w, Reconnect(replay), rest);
    assert [Reconnect(replay)] + rest == [Reconnect(replay), Deliver];
  }

  lemma LateClose<P>(o: Object<P>)
    ensures AllEnabled(FirstSeen(o), [Delete(o), Close, Reconnect([])])
    ensures Run(FirstSeen(o), [Delete(o), Close, Reconnect([])])
         == World(map[], Open([]), Some([o]), {o.meta.name}, {}, {o.meta.name}, {})
  {
    var w2 := FirstSeen(o);
    var w3 := Do(w2, Delete(o));
    var w4 := Do(w3, Close);
    assert w3 == World(map[], Open([Event(Deleted, o)]), Some([o]), {}, {}, {}, {});
    OneDeleted(o);
    assert w4 == World(map[], Closed, Some([o]), {}, {}, {o.meta.name}, {});
    assert [o][..0] == [] && View([o]) == map[o.meta.name := o];
    var last: seq<Action<P>> := [Reconnect([])];
    assert last == [Reconnect([])] + [];
    RunFirst(w4, Reconnect([]), []);
    RunFirst(w3, Close, last);
    RunFirst(w2, Delete(o), [Close] + last);
    assert [Delete(o)] + ([Close] + last) == [Delete(o), Close, Reconnect([])];
  }

  lemma OneDeleted<P>(o: Object<P>)
    ensures DeletedNames([Event(Deleted, o)]) == {o.meta.name}
  {
    assert [Event(Deleted, o)][1..] == [];
  }

  // One Deleted event dropped by a close leaves an extra name although the store began empty
  // and nothing was deleted offline.
  lemma DroppedDeletionLeavesExtra<P>(o: Object<P>)
    ensures var w := World(map[o.meta.name := o], Closed, None, {}, {}, {}, {});
      var acts := [Reconnect([Event(Added, o)]), Deliver] + [Delete(o), Close, Reconnect([])];
      && Init(w) && AllEnabled(w, acts)
      && var e := Run(w, acts);
         && e.conn == Open([]) && e.offline == {} && e.live == map[]
         && StoredNames(e.stored) == {o.meta.name} && StoredNames(w.stored) == {}
  {
    var w := World(map[o.meta.name := o], Closed, None, {}, {}, {}, {});
    FirstDelivery(o);
    LateClose(o);
    RunConcat(w, [Reconnect([Event(Added, o)]), Deliver], [Delete(o), Close, Reconnect([])]);
    assert [o][..0] == [] && View([o]) == map[o.meta.name := o];
  }
}
