// The stored cronjob and job lists: filter by name, append, and what a whole run of watch
// events leaves behind.  The two lists run the same code on different object types, so the
// model is generic in the payload.
module EventList {
  import opened Common
  import opened Objects

  datatype EventType = Added | Modified | Deleted | Bookmark | Error | OtherType

  datatype Event<+P> = Event(kind: EventType, obj: Object<P>)

  predicate IsUpsert<P>(ev: Event<P>) { ev.kind.Added? || ev.kind.Modified? }

  // Events that remove the stored objects of their name, to replace them or not.
  predicate Touches<P>(ev: Event<P>, name: string) {
    (IsUpsert(ev) || ev.kind.Deleted?) && ev.obj.meta.name == name
  }

  function NotNamed<P>(name: string): Object<P> -> bool {
    (o: Object<P>) => o.meta.name != name
  }

  function Without<P>(items: seq<Object<P>>, name: string): seq<Object<P>> {
    Filter(NotNamed(name), items)
  }

  lemma WithoutAppend<P>(items: seq<Object<P>>, o: Object<P>, name: string)
    ensures Without(items + [o], name)
         == Without(items, name) + (if o.meta.name == name then [] else [o])
  {
    FilterAppend(NotNamed(name), items, o);
  }

  // filterCronJobsList and filterStoredJobList: copy the others, then replace Items.
  method FilterList<P>(items: seq<Object<P>>, name: string) returns (kept: seq<Object<P>>)
    ensures kept == Without(items, name)
  {
    kept := [];
    for i := 0 to |items|
      invariant kept == Without(items[..i], name)
    {
      WithoutAppend(items[..i], items[i], name);
      assert items[..i + 1] == items[..i] + [items[i]];
      if items[i].meta.name != name {
        kept := kept + [items[i]];
      }
    }
    assert items[..|items|] == items;
  }

  // updateStoredCronjobList and updateStoredJobList.
  function UpdateList<P>(items: seq<Object<P>>, ev: Event<P>): seq<Object<P>> {
    match ev.kind
    case Added | Modified => Without(items, ev.obj.meta.name) + [ev.obj]
    case Deleted => Without(items, ev.obj.meta.name)
    case Bookmark | Error | OtherType => items
  }

  method ApplyEvent<P>(items: seq<Object<P>>, ev: Event<P>) returns (r: seq<Object<P>>)
    ensures r == UpdateList(items, ev)
  {
    r := items;
    match ev.kind {
      case Added | Modified =>
        r := FilterList(r, ev.obj.meta.name);
        r := r + [ev.obj];
      case Deleted =>
        r := FilterList(r, ev.obj.meta.name);
      case Bookmark | Error | OtherType =>
    }
  }

  // A missing key: the first event is stored whatever its type.
  function NextList<P>(stored: Option<seq<Object<P>>>, ev: Event<P>): seq<Object<P>> {
    match stored
    case None => [ev.obj]
    case Some(items) => UpdateList(items, ev)
  }

  function FoldEvents<P>(stored: Option<seq<Object<P>>>, evs: seq<Event<P>>): Option<seq<Object<P>>>
    decreases evs
  {
    if evs == [] then stored else FoldEvents(Some(NextList(stored, evs[0])), evs[1..])
  }

  // ---------- the closed form ----------

  predicate Untouched<P>(evs: seq<Event<P>>, name: string) {
    forall i :: 0 <= i < |evs| ==> !Touches(evs[i], name)
  }

  function KeptBy<P>(evs: seq<Event<P>>): Object<P> -> bool {
    (o: Object<P>) => Untouched(evs, o.meta.name)
  }

  // The upsert at the head of evs, if no later event touches its name.
  function HeadUpsert<P>(evs: seq<Event<P>>): seq<Object<P>>
    requires evs != []
  {
    if IsUpsert(evs[0]) && Untouched(evs[1..], evs[0].obj.meta.name) then [evs[0].obj] else []
  }

  // The objects of the upserts that no later event touches, in the order of those upserts.
  function LastUpserts<P>(evs: seq<Event<P>>): seq<Object<P>> {
    if evs == [] then [] else HeadUpsert(evs) + LastUpserts(evs[1..])
  }

  lemma UntouchedFirst<P>(evs: seq<Event<P>>, name: string)
    requires evs != []
    ensures Untouched(evs, name) <==> !Touches(evs[0], name) && Untouched(evs[1..], name)
  {
    if !Touches(evs[0], name) && Untouched(evs[1..], name) {
      forall i | 0 <= i < |evs| ensures !Touches(evs[i], name) {
        if i > 0 { assert evs[i] == evs[1..][i - 1]; }
      }
    }
    if Untouched(evs, name) {
      forall i | 0 <= i < |evs| - 1 ensures !Touches(evs[1..][i], name) {
        assert evs[1..][i] == evs[i + 1];
      }
    }
  }

  lemma {:induction false} FilterFilter<T>(p: T -> bool, q: T -> bool, r: T -> bool, s: seq<T>)
    requires forall x | x in s :: r(x) == (p(x) && q(x))
    ensures Filter(p, Filter(q, s)) == Filter(r, s)
  {
    if s != [] {
      FilterFilter(p, q, r, s[1..]);
      FilterConcat(p, if q(s[0]) then [s[0]] else [], Filter(q, s[1..]));
      assert [s[0]][1..] == [];
    }
  }

  lemma KeptAfterOneMore<P>(items: seq<Object<P>>, evs: seq<Event<P>>)
    requires evs != []
    ensures IsUpsert(evs[0]) || evs[0].kind.Deleted? ==>
      Filter(KeptBy(evs[1..]), Without(items, evs[0].obj.meta.name)) == Filter(KeptBy(evs), items)
    ensures !IsUpsert(evs[0]) && !evs[0].kind.Deleted? ==>
      Filter(KeptBy(evs[1..]), items) == Filter(KeptBy(evs), items)
  {
    forall o: Object<P> ensures Untouched(evs, o.meta.name) <==> !Touches(evs[0], o.meta.name) && Untouched(evs[1..], o.meta.name) {
      UntouchedFirst(evs, o.meta.name);
    }
    if IsUpsert(evs[0]) || evs[0].kind.Deleted? {
      FilterFilter(KeptBy(evs[1..]), NotNamed(evs[0].obj.meta.name), KeptBy(evs), items);
    } else {
      FilterSame(KeptBy(evs[1..]), KeptBy(evs), items);
    }
  }

  lemma UpsertClosedForm<P>(items: seq<Object<P>>, evs: seq<Event<P>>)
    requires evs != [] && IsUpsert(evs[0])
    ensures Filter(KeptBy(evs[1..]), UpdateList(items, evs[0])) == Filter(KeptBy(evs), items) + HeadUpsert(evs)
  {
    KeptAfterOneMore(items, evs);
    FilterAppend(KeptBy(evs[1..]), Without(items, evs[0].obj.meta.name), evs[0].obj);
  }

  lemma OneEventClosedForm<P>(items: seq<Object<P>>, evs: seq<Event<P>>)
    requires evs != []
    ensures Filter(KeptBy(evs[1..]), UpdateList(items, evs[0])) + LastUpserts(evs[1..])
         == Filter(KeptBy(evs), items) + LastUpserts(evs)
  {
    if IsUpsert(evs[0]) {
      UpsertClosedForm(items, evs);
      ConcatAssociative(Filter(KeptBy(evs), items), HeadUpsert(evs), LastUpserts(evs[1..]));
    } else {
      KeptAfterOneMore(items, evs);
      assert LastUpserts(evs) == LastUpserts(evs[1..]);
    }
  }

  // A stored list after any run of events: the old objects no event touched, then the
  // surviving upserts in the order of their last upsert.
  lemma {:induction false} FoldClosedForm<P>(items: seq<Object<P>>, evs: seq<Event<P>>)
    ensures FoldEvents(Some(items), evs) == Some(Filter(KeptBy(evs), items) + LastUpserts(evs))
    decreases evs
  {
    if evs == [] {
      FilterAll(items, KeptBy(evs));
      assert items + LastUpserts(evs) == items;
    } else {
      OneEventClosedForm(items, evs);
      FoldClosedForm(UpdateList(items, evs[0]), evs[1..]);
    }
  }

  // From a missing key: as if the first event had been an Added one.
  lemma FoldFromMissingKey<P>(evs: seq<Event<P>>)
    requires evs != []
    ensures FoldEvents(None, evs) == Some(LastUpserts([evs[0].(kind := Added)] + evs[1..]))
  {
    var asAdded := [evs[0].(kind := Added)] + evs[1..];
    assert asAdded[1..] == evs[1..];
    FoldClosedForm([evs[0].obj], evs[1..]);
    FoldClosedForm([], asAdded);
    assert Without<P>([], evs[0].obj.meta.name) + [evs[0].obj] == [evs[0].obj];
    assert Filter(KeptBy(asAdded), []) + LastUpserts(asAdded) == LastUpserts(asAdded);
    assert FoldEvents(Some([]), asAdded) == FoldEvents(Some([evs[0].obj]), evs[1..]);
  }

  // ---------- the list stands for a map ----------

  predicate Unique<P>(items: seq<Object<P>>) {
    forall i, j :: 0 <= i < j < |items| ==> items[i].meta.name != items[j].meta.name
  }

  function View<P>(items: seq<Object<P>>): map<string, Object<P>> {
    if items == [] then map[] else
      var last := items[|items| - 1];
      View(items[..|items| - 1])[last.meta.name := last]
  }

  function UpdateMap<P>(m: map<string, Object<P>>, ev: Event<P>): map<string, Object<P>> {
    match ev.kind
    case Added | Modified => m[ev.obj.meta.name := ev.obj]
    case Deleted => m - {ev.obj.meta.name}
    case Bookmark | Error | OtherType => m
  }

  function NextMap<P>(m: Option<map<string, Object<P>>>, ev: Event<P>): map<string, Object<P>> {
    match m
    case None => map[ev.obj.meta.name := ev.obj]
    case Some(m) => UpdateMap(m, ev)
  }

  function FoldMap<P>(m: Option<map<string, Object<P>>>, evs: seq<Event<P>>): (r: Option<map<string, Object<P>>>)
    ensures r.None? <==> m.None? && evs == []
    decreases evs
  {
    if evs == [] then m else FoldMap(Some(NextMap(m, evs[0])), evs[1..])
  }

  function ViewOption<P>(stored: Option<seq<Object<P>>>): Option<map<string, Object<P>>> {
    match stored
    case None => None
    case Some(items) => Some(View(items))
  }

  predicate UniqueOption<P>(stored: Option<seq<Object<P>>>) { stored.Some? ==> Unique(stored.value) }

  lemma {:induction false} ViewContents<P>(items: seq<Object<P>>)
    ensures forall o | o in items :: o.meta.name in View(items)
    ensures Unique(items) ==> forall o | o in items :: View(items)[o.meta.name] == o
    ensures forall n :: n in View(items) ==> View(items)[n] in items && View(items)[n].meta.name == n
  {
    if items != [] {
      var front, last := items[..|items| - 1], items[|items| - 1];
      ViewContents(front);
      assert items == front + [last];
    }
  }

  lemma AppendToView<P>(items: seq<Object<P>>, o: Object<P>)
    ensures View(items + [o]) == View(items)[o.meta.name := o]
    ensures Unique(items) && o.meta.name !in View(items) ==> Unique(items + [o])
  {
    assert (items + [o])[..|items|] == items;
    ViewContents(items);
  }

  lemma {:induction false} WithoutView<P>(items: seq<Object<P>>, name: string)
    ensures View(Without(items, name)) == View(items) - {name}
  {
    if items != [] {
      var front, last := items[..|items| - 1], items[|items| - 1];
      WithoutView(front, name);
      assert items == front + [last];
      WithoutAppend(front, last, name);
      if last.meta.name == name {
        assert View(items) == View(front)[name := last];
        assert Without(items, name) == Without(front, name);
      } else {
        AppendToView(Without(front, name), last);
      }
    }
  }

  lemma {:induction false} WithoutStaysUnique<P>(items: seq<Object<P>>, name: string)
    requires Unique(items)
    ensures Unique(Without(items, name))
  {
    if items != [] {
      var front, last := items[..|items| - 1], items[|items| - 1];
      WithoutStaysUnique(front, name);
      assert items == front + [last];
      WithoutAppend(front, last, name);
      forall o | o in Without(front, name) ensures o.meta.name != last.meta.name {
        assert o in front;
      }
    }
  }

  // One event: names stay unique and the list does what the map does.
  lemma NextRefinesMap<P>(stored: Option<seq<Object<P>>>, ev: Event<P>)
    requires UniqueOption(stored)
    ensures Unique(NextList(stored, ev))
    ensures View(NextList(stored, ev)) == NextMap(ViewOption(stored), ev)
  {
    match stored
    case None =>
      assert [ev.obj][..0] == [];
    case Some(items) =>
      var name := ev.obj.meta.name;
      WithoutStaysUnique(items, name);
      WithoutView(items, name);
      if IsUpsert(ev) {
        AppendToView(Without(items, name), ev.obj);
        assert (View(items) - {name})[name := ev.obj] == View(items)[name := ev.obj];
      }
  }

  // Every run of events: the list refines the map.
  lemma {:induction false} FoldRefinesMap<P>(stored: Option<seq<Object<P>>>, evs: seq<Event<P>>)
    requires UniqueOption(stored)
    ensures UniqueOption(FoldEvents(stored, evs))
    ensures ViewOption(FoldEvents(stored, evs)) == FoldMap(ViewOption(stored), evs)
    decreases evs
  {
    if evs != [] {
      NextRefinesMap(stored, evs[0]);
      FoldRefinesMap(Some(NextList(stored, evs[0])), evs[1..]);
    }
  }
}
