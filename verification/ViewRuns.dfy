/** The evidence_current view over the stores that runs reach: exactly when all runs over the same
    events show the same view, generated ids and clocks aside. */
module ViewRuns {
  import opened Sorting
  import opened Wrappers
  import opened Uuids
  import opened EvidenceStore
  import opened Delivery
  import Snapshot
  import opened EvidenceCurrent
  import opened Reproducibility

  /** What a row of the view shows besides generated ids and clock readings. */
  datatype Observation = Observation(
    domainId: Uuid, signalClass: Text, sourceUrl: Text, observedAt: int, observedValue: Text, source: Text, methodText: Text)

  function Shown(r: EvidenceRow): Observation {
    Observation(r.domainId, r.signalClass, r.sourceUrl, r.observedAt, r.observedValue, r.source, r.methodText)
  }

  function ShownOf(e: Event): Observation {
    Observation(DomainOf(e), e.signalClass, e.sourceUrl, e.observedAt, e.observedValue, e.source, e.methodText)
  }

  function ObservationKey(o: Observation): Key { [o.domainId.digits, o.signalClass, o.sourceUrl] }

  function EventKey(e: Event): Key { ObservationKey(ShownOf(e)) }

  /** The view after a refresh, generated columns aside. */
  function View(s: Store): seq<Observation> {
    Map(Shown, Current(s.evidence))
  }

  /** No event of the same natural key was observed later. */
  ghost predicate LatestEvent(events: seq<Event>, e: Event) {
    e in events && forall f :: f in events && EventKey(f) == EventKey(e) ==> f.observedAt <= e.observedAt
  }

  /** The latest events of each natural key show the same. */
  ghost predicate OneLatest(events: seq<Event>) {
    forall e, f :: LatestEvent(events, e) && LatestEvent(events, f) && EventKey(e) == EventKey(f) ==> ShownOf(e) == ShownOf(f)
  }

  // ---- The view in terms of the events ----------------------------------------------------------

  lemma RowShowsEvent(s: Store, events: seq<Event>, i: nat)
    requires Holds(s, events) && i < |events|
    ensures Shown(s.evidence[i]) == ShownOf(events[i]) && NaturalKey(s.evidence[i]) == EventKey(events[i])
    ensures s.evidence[i].observedAt == events[i].observedAt
  {
    assert RowsCarry(s.provenance[i], s.evidence[i], events[i]);
  }

  lemma HeldPrimaryKey(s: Store, events: seq<Event>)
    requires Holds(s, events)
    ensures PrimaryKey(s.evidence)
  {
    forall a, b | a in s.evidence && b in s.evidence && a.evidenceId == b.evidenceId ensures a == b {
      var i :| 0 <= i < |s.evidence| && s.evidence[i] == a;
      var j :| 0 <= j < |s.evidence| && s.evidence[j] == b;
    }
  }

  /** A latest row carries a latest event. */
  lemma LatestRowLatestEvent(s: Store, events: seq<Event>, r: EvidenceRow) returns (e: Event)
    requires Holds(s, events) && Latest(s.evidence, r)
    ensures LatestEvent(events, e) && Shown(r) == ShownOf(e)
  {
    var i: nat :| i < |s.evidence| && s.evidence[i] == r;
    e := events[i];
    RowShowsEvent(s, events, i);
    forall f | f in events && EventKey(f) == EventKey(e) ensures f.observedAt <= e.observedAt {
      var j: nat :| j < |events| && events[j] == f;
      RowShowsEvent(s, events, j);
      assert s.evidence[j] in s.evidence;
      assert NotLater(s.evidence[j], r);
    }
  }

  lemma InView(s: Store, c: EvidenceRow)
    requires c in Current(s.evidence)
    ensures Shown(c) in View(s)
  {
    var p :| 0 <= p < |Current(s.evidence)| && Current(s.evidence)[p] == c;
    assert View(s)[p] == Shown(c);
  }

  lemma FromView(s: Store, o: Observation) returns (c: EvidenceRow)
    requires o in View(s)
    ensures c in Current(s.evidence) && Shown(c) == o
  {
    var p :| 0 <= p < |View(s)| && View(s)[p] == o;
    c := Current(s.evidence)[p];
  }

  /** Where the latest events agree, the view shows exactly them. */
  lemma ViewShowsLatest(s: Store, events: seq<Event>, o: Observation)
    requires Holds(s, events) && OneLatest(events)
    ensures o in View(s) <==> exists e :: LatestEvent(events, e) && ShownOf(e) == o
  {
    HeldPrimaryKey(s, events);
    if o in View(s) {
      var c := FromView(s, o);
      CurrentIsLatest(s.evidence, c);
      var e := LatestRowLatestEvent(s, events, c);
    }
    if e :| LatestEvent(events, e) && ShownOf(e) == o {
      var i: nat :| i < |events| && events[i] == e;
      RowShowsEvent(s, events, i);
      var c := CurrentFor(s.evidence, s.evidence[i]);
      var f := LatestRowLatestEvent(s, events, c);
      assert EventKey(f) == NaturalKey(c);
      InView(s, c);
    }
  }

  // ---- The order of the view --------------------------------------------------------------------

  lemma {:induction false} KeptStaySorted(s: seq<EvidenceRow>)
    requires SortedBy(ViewKey, s)
    ensures SortedBy(ViewKey, FirstOfGroups(s))
  {
    if |s| > 0 {
      var n := |s| - 1;
      var before, all := FirstOfGroups(s[..n]), FirstOfGroups(s);
      KeptStaySorted(s[..n]);
      forall p, q | 0 <= p < q < |all| ensures KeyLeq(ViewKey(all[p]), ViewKey(all[q])) {
        if q == |before| { var i := KeptAreFirsts(s, p); }
      }
    }
  }

  lemma CurrentInOrder(rows: seq<EvidenceRow>, p: nat, q: nat)
    requires PrimaryKey(rows) && p < q < |Current(rows)|
    ensures KeyLeq(NaturalKey(Current(rows)[p]), NaturalKey(Current(rows)[q]))
    ensures NaturalKey(Current(rows)[p]) != NaturalKey(Current(rows)[q])
  {
    SortFacts(ViewKey, rows);
    KeptStaySorted(SortBy(ViewKey, rows));
    NaturalOrder(Current(rows)[p], Current(rows)[q]);
    CurrentHasOneLatestRowPerKey(rows);
  }

  lemma DifferentKeys<T(!new)>(key: T -> Key, s: seq<T>)
    requires forall p, q :: 0 <= p < q < |s| ==> key(s[p]) != key(s[q])
    ensures KeysDistinguish(key, s) && Snapshot.NoRepeats(s)
  {
    forall x, y | x in s && y in s && key(x) == key(y) ensures x == y {
      var p :| 0 <= p < |s| && s[p] == x;
      var q :| 0 <= q < |s| && s[q] == y;
    }
    Snapshot.DistinctNoRepeats(s);
  }

  /** The view is in the order of its natural keys, each key once. */
  lemma ViewSorted(s: Store, events: seq<Event>)
    requires Holds(s, events)
    ensures SortedBy(ObservationKey, View(s)) && KeysDistinguish(ObservationKey, View(s)) && Snapshot.NoRepeats(View(s))
  {
    HeldPrimaryKey(s, events);
    forall p, q | 0 <= p < q < |View(s)|
      ensures KeyLeq(ObservationKey(View(s)[p]), ObservationKey(View(s)[q])) && ObservationKey(View(s)[p]) != ObservationKey(View(s)[q])
    {
      CurrentInOrder(s.evidence, p, q);
    }
    DifferentKeys(ObservationKey, View(s));
  }

  lemma SameMembersSameLatest(a: seq<Event>, b: seq<Event>)
    requires forall e :: e in a <==> e in b
    ensures forall e :: LatestEvent(a, e) <==> LatestEvent(b, e)
    ensures OneLatest(a) <==> OneLatest(b)
  {}

  /** The view is a function of the set of events, where their latest agree. */
  lemma ViewsAgree(s: Store, a: seq<Event>, t: Store, b: seq<Event>)
    requires Holds(s, a) && Holds(t, b) && OneLatest(a) && forall e :: e in a <==> e in b
    ensures View(s) == View(t)
  {
    SameMembersSameLatest(a, b);
    ViewSorted(s, a);
    ViewSorted(t, b);
    forall o ensures o in View(s) <==> o in View(t) {
      ViewShowsLatest(s, a, o);
      ViewShowsLatest(t, b, o);
    }
    SameMembersSameMultiset(View(s), View(t));
    SortedUnique(ObservationKey, View(s), View(t));
  }

  // ---- Over runs ----------------------------------------------------------------------------------

  lemma SameFirsts(a: seq<Message>, b: seq<Message>)
    requires SameEvents(a, b) && EqualKeysEqualContent(a) && EqualKeysEqualContent(b)
    ensures forall e :: e in Firsts(a) <==> e in Firsts(b)
  {
    forall e ensures e in Firsts(a) <==> e in Firsts(b) {
      FirstsMembers(a, e);
      FirstsMembers(b, e);
    }
  }

  /** Two drained runs, in either runtime, with any window, faults, delivery order, duplication,
      generated ids and clocks, show one view if their logs carry the same events, equal keys
      carry equal content, and the latest events of each natural key show the same. */
  lemma RunsShowOneView(
    rt1: Runtime, capacity1: nat, steps1: seq<Step>, rt2: Runtime, capacity2: nat, steps2: seq<Step>,
    schema1: Event -> bool, schema2: Event -> bool, w1: World, w2: World)
    requires w1 == Run(rt1, capacity1, schema1, steps1) && w2 == Run(rt2, capacity2, schema2, steps2)
    requires FullyCommitted(w1) && FullyCommitted(w2) && SameEvents(w1.log, w2.log)
    requires EqualKeysEqualContent(w1.log) && EqualKeysEqualContent(w2.log) && OneLatest(Firsts(w1.log))
    ensures View(w1.store) == View(w2.store)
  {
    DrainedHolds(rt1, capacity1, schema1, steps1);
    DrainedHolds(rt2, capacity2, schema2, steps2);
    SameFirsts(w1.log, w2.log);
    ViewsAgree(w1.store, Firsts(w1.log), w2.store, Firsts(w2.log));
  }

  ghost predicate SameViewInEveryRun(rt: Runtime, capacity: nat, schema: Event -> bool, events: seq<Event>) {
    forall v, w :: RunOver(rt, capacity, schema, events, v) && RunOver(rt, capacity, schema, events, w) ==> View(v.store) == View(w.store)
  }

  /** Generated ids with the greatest evidence id at i, all in one clock tick. */
  function TopIds(n: nat, i: nat): (ids: seq<Fresh>)
    ensures |ids| == n
  {
    seq(n, k requires 0 <= k < n => Fresh(k, if k == i then n else k, 0))
  }

  lemma TopIsLatest(s: Store, events: seq<Event>, i: nat)
    requires Holds(s, events) && i < |events| && LatestEvent(events, events[i]) && WrittenWith(s, events, TopIds(|events|, i))
    ensures s.evidence[i] in Current(s.evidence)
  {
    RowShowsEvent(s, events, i);
    forall x | x in s.evidence && NaturalKey(x) == NaturalKey(s.evidence[i]) ensures NotLater(x, s.evidence[i]) {
      var k: nat :| k < |s.evidence| && s.evidence[k] == x;
      RowShowsEvent(s, events, k);
      assert events[k] in events;
    }
    HeldPrimaryKey(s, events);
    CurrentIsLatest(s.evidence, s.evidence[i]);
  }

  lemma TopRun(rt: Runtime, capacity: nat, schema: Event -> bool, events: seq<Event>, i: nat) returns (w: World)
    requires DistinctKeys(events) && AllStorable(events) && forall k :: 0 <= k < |events| ==> schema(events[k])
    requires i < |events| && LatestEvent(events, events[i])
    ensures RunOver(rt, capacity, schema, events, w) && Holds(w.store, events) && w.store.evidence[i] in Current(w.store.evidence)
  {
    w := RunWith(rt, capacity, schema, events, TopIds(|events|, i));
    TopIsLatest(w.store, events, i);
  }

  lemma OtherLatestDiffers(rt: Runtime, capacity: nat, schema: Event -> bool, events: seq<Event>)
    requires DistinctKeys(events) && AllStorable(events) && forall k :: 0 <= k < |events| ==> schema(events[k])
    requires !OneLatest(events)
    ensures !SameViewInEveryRun(rt, capacity, schema, events)
  {
    var e, f :| LatestEvent(events, e) && LatestEvent(events, f) && EventKey(e) == EventKey(f) && ShownOf(e) != ShownOf(f);
    var i: nat :| i < |events| && events[i] == e;
    var j: nat :| j < |events| && events[j] == f;
    var v := TopRun(rt, capacity, schema, events, i);
    var w := TopRun(rt, capacity, schema, events, j);
    if View(v.store) == View(w.store) {
      DifferentRowsOfOneKey(v.store, w.store, events, i, j);
    }
  }

  lemma DifferentRowsOfOneKey(s: Store, t: Store, events: seq<Event>, i: nat, j: nat)
    requires Holds(s, events) && Holds(t, events) && i < |events| && j < |events| && EventKey(events[i]) == EventKey(events[j])
    requires s.evidence[i] in Current(s.evidence) && t.evidence[j] in Current(t.evidence) && View(s) == View(t)
    ensures ShownOf(events[i]) == ShownOf(events[j])
  {
    RowShowsEvent(s, events, i);
    RowShowsEvent(t, events, j);
    InView(s, s.evidence[i]);
    InView(t, t.evidence[j]);
    ViewSorted(t, events);
  }

  lemma RunOverMembers(rt: Runtime, capacity: nat, schema: Event -> bool, events: seq<Event>, w: World)
    requires DistinctKeys(events) && RunOver(rt, capacity, schema, events, w)
    ensures Holds(w.store, Firsts(w.log)) && forall e :: e in Firsts(w.log) <==> e in events
  {
    var steps :| w == Run(rt, capacity, schema, steps);
    DrainedHolds(rt, capacity, schema, steps);
    RunOverIsConsistent(rt, capacity, schema, events, w, Uuid([]));
    forall e ensures e in Firsts(w.log) <==> e in events { FirstsMembers(w.log, e); }
  }

  /** The exact condition: given events in some order that the database takes, all drained runs
      over them, in every order and with every duplication, fault, generated id and clock, show one
      view if and only if for every natural key all events of the latest observation time show the
      same. */
  lemma ViewReproducibleIffOneLatest(rt: Runtime, capacity: nat, schema: Event -> bool, events: seq<Event>)
    requires DistinctKeys(events) && AllStorable(events) && forall i :: 0 <= i < |events| ==> schema(events[i])
    ensures SameViewInEveryRun(rt, capacity, schema, events) <==> OneLatest(events)
  {
    if OneLatest(events) {
      forall v, w | RunOver(rt, capacity, schema, events, v) && RunOver(rt, capacity, schema, events, w)
        ensures View(v.store) == View(w.store)
      {
        RunOverMembers(rt, capacity, schema, events, v);
        RunOverMembers(rt, capacity, schema, events, w);
        SameMembersSameLatest(events, Firsts(v.log));
        ViewsAgree(v.store, Firsts(v.log), w.store, Firsts(w.log));
      }
    } else {
      OtherLatestDiffers(rt, capacity, schema, events);
    }
  }

  /** Two observations of one key at one instant, with different values: which of them the view
      shows is decided by recording time and generated ids. */
  lemma TiedObservationsDiffer(rt: Runtime, capacity: nat, schema: Event -> bool) returns (e: Event, f: Event)
    requires forall x :: schema(x)
    ensures DistinctKeys([e, f]) && AllStorable([e, f]) && EventKey(e) == EventKey(f) && e.observedAt == f.observedAt
    ensures !SameViewInEveryRun(rt, capacity, schema, [e, f])
  {
    var own, _ := TwoSpellings();
    e, f := SampleEvent([0], own), SampleEvent([1], own).(observedValue := [9]);
    assert e.observedValue[0] != f.observedValue[0];
    PairDistinct(e, f);
    NormalisedIffLowerCase(own);
    PairStorable(e, f);
    assert e in [e, f] && f in [e, f];
    assert LatestEvent([e, f], e) && LatestEvent([e, f], f);
    ViewReproducibleIffOneLatest(rt, capacity, schema, [e, f]);
  }
}
