/** The reproducibility claim over whole runs: what the stable snapshot depends on, exactly
    when it is the same for every run, and that equal stable snapshots mean equal rows up to
    a renaming of generated ids. */
module Reproducibility {
  import opened Sorting
  import opened Wrappers
  import opened Uuids
  import opened EvidenceStore
  import opened Delivery
  import opened Snapshot

  // ---- Runs over the same set of events -----------------------------------------------------

  ghost predicate SameEvents(a: seq<Message>, b: seq<Message>) {
    forall e :: Envelope(e) in a <==> Envelope(e) in b
  }

  ghost predicate EqualKeysEqualContent(log: seq<Message>) {
    forall e, f :: Envelope(e) in log && Envelope(f) in log && e.key == f.key ==> e == f
  }

  lemma {:induction false} FirstsDistinct(log: seq<Message>)
    ensures DistinctKeys(Firsts(log))
  {
    if |log| > 0 {
      FirstsDistinct(log[..|log| - 1]);
    }
  }

  /** With consistent keys the first occurrences are all the events of the log. */
  lemma FirstsMembers(log: seq<Message>, e: Event)
    requires EqualKeysEqualContent(log)
    ensures e in Firsts(log) <==> Envelope(e) in log
  {
    if e in Firsts(log) {
      var j :| 0 <= j < |Firsts(log)| && Firsts(log)[j] == e;
      FirstsComeFromLog(log, j);
    }
    if Envelope(e) in log {
      var i :| 0 <= i < |log| && log[i] == Envelope(e);
      FirstsHasKey(log, i);
      var j :| 0 <= j < |Firsts(log)| && Firsts(log)[j].key == e.key;
      FirstsComeFromLog(log, j);
    }
  }

  lemma SameMembersSameMultiset<T(!new)>(a: seq<T>, b: seq<T>)
    requires NoRepeats(a) && NoRepeats(b) && forall e :: e in a <==> e in b
    ensures multiset(a) == multiset(b)
  {
    forall e ensures multiset(a)[e] == multiset(b)[e] {
      assert e in a <==> e in multiset(a);
      assert e in b <==> e in multiset(b);
    }
  }

  lemma FirstsOfDomainAgree(a: seq<Message>, b: seq<Message>, d: Uuid)
    requires SameEvents(a, b) && EqualKeysEqualContent(a) && EqualKeysEqualContent(b)
    ensures multiset(OfDomain(Firsts(a), d)) == multiset(OfDomain(Firsts(b), d))
  {
    FirstsDistinct(a);
    FirstsDistinct(b);
    DistinctNoRepeats(Firsts(a));
    DistinctNoRepeats(Firsts(b));
    FilterCounts((e: Event) => DomainOf(e) == d, Firsts(a));
    FilterCounts((e: Event) => DomainOf(e) == d, Firsts(b));
    forall e ensures e in OfDomain(Firsts(a), d) <==> e in OfDomain(Firsts(b), d) {
      FirstsMembers(a, e);
      FirstsMembers(b, e);
    }
    SameMembersSameMultiset(OfDomain(Firsts(a), d), OfDomain(Firsts(b), d));
  }

  /** The expected snapshot does not see the order of the events. */
  lemma ExpectedIgnoresOrder(a: seq<Event>, b: seq<Event>)
    requires multiset(a) == multiset(b) && NoTies(a) && NoRepeats(a)
    requires |a| > 0 ==> |b| > 0 && a[0].domainId == b[0].domainId
    requires forall e, f :: e in a && f in a && e.key == f.key ==> e == f
    ensures ExpectedStable(a) == ExpectedStable(b)
  {
    assert |multiset(a)| == |a| && |multiset(b)| == |b|;
    forall x, y | x in a && y in a && EventProvenanceKey(x) == EventProvenanceKey(y) ensures x == y {
      assert EventProvenanceKey(x)[1] == EventProvenanceKey(y)[1];
      AnchorInjective(x.key, y.key);
    }
    SortIgnoresOrder(EventProvenanceKey, a, b);
    SortIgnoresOrder(EventEvidenceKey, a, b);
  }

  ghost predicate FullyCommitted(w: World) {
    w.committed == |w.log|
  }

  /** Spelled as the CHECK wants it, so that the event may be the first of its domain. */
  predicate MayComeFirst(e: Event) {
    Normalised(NormalisedUrl(e.domainId))
  }

  /** All events that may come first spell the domain in one way. */
  ghost predicate OneSpelling(events: seq<Event>) {
    forall e, f :: e in events && f in events && MayComeFirst(e) && MayComeFirst(f) ==> e.domainId == f.domainId
  }

  /** Element i is kept after another one, or fit to be the first that is kept. */
  ghost predicate FitAt<T(!new)>(p: T -> bool, fit: T -> bool, s: seq<T>, i: nat)
    requires i < |s|
  {
    p(s[i]) ==> |Filter(p, s[..i])| > 0 || fit(s[i])
  }

  lemma {:induction false} FirstIsFit<T(!new)>(p: T -> bool, fit: T -> bool, s: seq<T>, n: nat)
    requires n <= |s| && forall i {:trigger FitAt(p, fit, s, i)} :: 0 <= i < |s| ==> FitAt(p, fit, s, i)
    ensures |Filter(p, s[..n])| > 0 ==> fit(Filter(p, s[..n])[0])
  {
    if n > 0 {
      FirstIsFit(p, fit, s, n - 1);
      var fitHere := FitAt(p, fit, s, n - 1);
      OneMore(s, n);
      FirstStaysFit(p, fit, s[..n - 1], s[n - 1], s[..n]);
    }
  }

  lemma OneMore<T>(s: seq<T>, n: nat)
    requires 0 < n <= |s|
    ensures s[..n] == s[..n - 1] + [s[n - 1]]
  {}

  lemma FirstStaysFit<T(!new)>(p: T -> bool, fit: T -> bool, before: seq<T>, x: T, s: seq<T>)
    requires s == before + [x] && (p(x) ==> |Filter(p, before)| > 0 || fit(x))
    requires |Filter(p, before)| > 0 ==> fit(Filter(p, before)[0])
    ensures |Filter(p, s)| > 0 ==> fit(Filter(p, s)[0])
  {
    FilterAppend(p, before, x);
  }

  /** The first event of a domain is fit to come first. */
  lemma FirstMayComeFirst(events: seq<Event>, d: Uuid)
    requires AllStorable(events)
    ensures |OfDomain(events, d)| > 0 ==> MayComeFirst(OfDomain(events, d)[0])
  {
    var p := (e: Event) => DomainOf(e) == d;
    var fit := (e: Event) => MayComeFirst(e);
    forall i | 0 <= i < |events| ensures FitAt(p, fit, events, i) {
      assert StorableAt(events, i);
      SameFilter(events[..i], d);
    }
    SameFilter(events, d);
    FirstIsFit(p, fit, events, |events|);
    assert events[..|events|] == events;
  }

  lemma SameFilter(events: seq<Event>, d: Uuid)
    ensures OfDomain(events, d) == Filter((e: Event) => DomainOf(e) == d, events)
  {}

  /** Two drained runs, in either runtime, with any window, any interleaving of faults, crashes
      and restarts, any delivery order and duplication, and any generated ids and clocks, give
      equal stable snapshots if their logs carry the same events, equal keys carry equal
      content, no two events of the domain tie, and the domain is spelled in one way. */
  lemma RunsAreReproducible(
    rt1: Runtime, capacity1: nat, steps1: seq<Step>, rt2: Runtime, capacity2: nat, steps2: seq<Step>,
    schema1: Event -> bool, schema2: Event -> bool, d: Uuid, w1: World, w2: World)
    requires w1 == Run(rt1, capacity1, schema1, steps1) && w2 == Run(rt2, capacity2, schema2, steps2)
    requires FullyCommitted(w1) && FullyCommitted(w2) && SameEvents(w1.log, w2.log)
    requires EqualKeysEqualContent(w1.log) && EqualKeysEqualContent(w2.log)
    requires NoTies(OfDomain(Firsts(w1.log), d)) && OneSpelling(OfDomain(Firsts(w1.log), d))
    ensures SameSnapshot(w1.store, w2.store, d)
  {
    DrainedHolds(rt1, capacity1, schema1, steps1);
    DrainedHolds(rt2, capacity2, schema2, steps2);
    HoldersAgree(w1.store, w2.store, w1.log, w2.log, d);
  }

  /** Two stores show the same stable snapshot of a domain. */
  ghost predicate SameSnapshot(s: Store, t: Store, d: Uuid) {
    Capture(s, d).Some? && Capture(t, d).Some? && Capture(s, d).value.stable == Capture(t, d).value.stable
  }

  lemma DrainedHolds(rt: Runtime, capacity: nat, schema: Event -> bool, steps: seq<Step>)
    requires FullyCommitted(Run(rt, capacity, schema, steps))
    ensures var w := Run(rt, capacity, schema, steps); Holds(w.store, Firsts(w.log))
  {
    var w := Run(rt, capacity, schema, steps);
    StoreRefinesLog(rt, capacity, schema, steps);
    assert w.log[..w.committed] == w.log;
  }

  lemma HoldersAgree(s1: Store, s2: Store, log1: seq<Message>, log2: seq<Message>, d: Uuid)
    requires Holds(s1, Firsts(log1)) && Holds(s2, Firsts(log2))
    requires SameEvents(log1, log2) && EqualKeysEqualContent(log1) && EqualKeysEqualContent(log2)
    requires NoTies(OfDomain(Firsts(log1), d)) && OneSpelling(OfDomain(Firsts(log1), d))
    ensures SameSnapshot(s1, s2, d)
  {
    var a, b := OfDomain(Firsts(log1), d), OfDomain(Firsts(log2), d);
    FirstsOfDomainAgree(log1, log2, d);
    DistinctNoRepeats(Firsts(log1));
    FilterCounts((e: Event) => DomainOf(e) == d, Firsts(log1));
    assert NoRepeats(a);
    forall e, f | e in a && f in a && e.key == f.key ensures e == f {
      FirstsMembers(log1, e);
      FirstsMembers(log1, f);
    }
    SameFirstSpelling(Firsts(log1), Firsts(log2), d);
    ExpectedIgnoresOrder(a, b);
    TiesIgnoreOrder(a, b);
    CaptureIsExpected(s1, Firsts(log1), d);
    CaptureIsExpected(s2, Firsts(log2), d);
  }

  lemma SameFirstSpelling(events1: seq<Event>, events2: seq<Event>, d: Uuid)
    requires AllStorable(events1) && AllStorable(events2) && OneSpelling(OfDomain(events1, d))
    requires multiset(OfDomain(events1, d)) == multiset(OfDomain(events2, d))
    ensures |OfDomain(events1, d)| > 0 ==>
              |OfDomain(events2, d)| > 0 && OfDomain(events1, d)[0].domainId == OfDomain(events2, d)[0].domainId
  {
    var a, b := OfDomain(events1, d), OfDomain(events2, d);
    assert |multiset(a)| == |a| && |multiset(b)| == |b|;
    if |a| > 0 {
      FirstMayComeFirst(events1, d);
      FirstMayComeFirst(events2, d);
      assert b[0] in multiset(a);
    }
  }

  lemma TiesIgnoreOrder(a: seq<Event>, b: seq<Event>)
    requires multiset(a) == multiset(b) && NoTies(a) && NoRepeats(a)
    ensures NoTies(b)
  {
    forall i, j | 0 <= i < j < |b| ensures EventEvidenceKey(b[i]) != EventEvidenceKey(b[j]) {
      NoRepeatsDistinct(b, i, j);
      assert b[i] in multiset(a) && b[j] in multiset(a);
      var x :| 0 <= x < |a| && a[x] == b[i];
      var y :| 0 <= y < |a| && a[y] == b[j];
    }
  }

  // ---- Exactly when the claim holds ------------------------------------------------------------

  ghost predicate FreshIds(ids: seq<Fresh>, n: nat) {
    |ids| == n && forall i, j :: 0 <= i < j < n ==>
                    ids[i].provenanceId != ids[j].provenanceId && ids[i].evidenceId != ids[j].evidenceId
  }

  /** The fault-free run that publishes and consumes the events one after another. */
  function PlainRun(events: seq<Event>, ids: seq<Fresh>): seq<Step>
    requires |ids| == |events|
  {
    if |events| == 0 then []
    else
      var n := |events| - 1;
      PlainRun(events[..n], ids[..n])
      + [Produce(Envelope(events[n]))] + [Start] + [PollStep(Deliver(NoFault, ids[n], CommitOk))]
  }

  ghost predicate WrittenWith(s: Store, events: seq<Event>, ids: seq<Fresh>) {
    && Holds(s, events) && |ids| == |events|
    && forall i :: 0 <= i < |events| ==>
         && s.provenance[i].provenanceId == ids[i].provenanceId
         && s.evidence[i].evidenceId == ids[i].evidenceId && s.evidence[i].recordedAt == ids[i].now
  }

  lemma WriteNext(s: Store, events: seq<Event>, ids: seq<Fresh>, n: nat)
    requires n < |events| && DistinctKeys(events) && AllStorable(events) && FreshIds(ids, |events|)
    requires WrittenWith(s, events[..n], ids[..n])
    ensures Attempt(s, events[n], ids[n], NoFault).result.Some?
    ensures WrittenWith(Attempt(s, events[n], ids[n], NoFault).store, events[..n + 1], ids[..n + 1])
  {
    OneMore(events, n + 1);
    OneMore(ids, n + 1);
    StorableHere(events, n);
    WriteOneMore(s, events[..n], ids[..n], events[n], ids[n]);
  }

  lemma StorableHere(events: seq<Event>, i: nat)
    requires AllStorable(events) && i < |events|
    ensures Storable(events[..i], events[i])
  {
    var here := StorableAt(events, i);
  }

  lemma WriteOneMore(s: Store, before: seq<Event>, ids: seq<Fresh>, e: Event, id: Fresh)
    requires WrittenWith(s, before, ids) && Storable(before, e) && forall i :: 0 <= i < |before| ==> before[i].key != e.key
    requires forall i :: 0 <= i < |ids| ==> ids[i].provenanceId != id.provenanceId && ids[i].evidenceId != id.evidenceId
    ensures Attempt(s, e, id, NoFault).result.Some?
    ensures WrittenWith(Attempt(s, e, id, NoFault).store, before + [e], ids + [id])
  {
    WriteKeepsHolds(s, before, e, id);
    PlainAttempt(s, e, id);
    InsertedWith(s, before, ids, e, id);
  }

  lemma PlainAttempt(s: Store, e: Event, f: Fresh)
    ensures Write(s, e, f).Written? ==> Attempt(s, e, f, NoFault) == Attempted(Write(s, e, f).store, Some(Write(s, e, f).result))
  {}

  lemma InsertedWith(s: Store, before: seq<Event>, ids: seq<Fresh>, e: Event, id: Fresh)
    requires WrittenWith(s, before, ids) && Holds(Inserted(s, e, id), before + [e])
    ensures WrittenWith(Inserted(s, e, id), before + [e], ids + [id])
  {}

  lemma RunThreeMore(rt: Runtime, capacity: nat, schema: Event -> bool, steps: seq<Step>, a: Step, b: Step, c: Step)
    ensures Run(rt, capacity, schema, steps + [a] + [b] + [c])
            == Apply(rt, capacity, schema, Apply(rt, capacity, schema, Apply(rt, capacity, schema, Run(rt, capacity, schema, steps), a), b), c)
  {
    RunSnoc(rt, capacity, schema, steps, a);
    RunSnoc(rt, capacity, schema, steps + [a], b);
    RunSnoc(rt, capacity, schema, steps + [a] + [b], c);
  }

  /** The first n events are published, committed and written with their ids. */
  ghost predicate PlainlyRun(w: World, events: seq<Event>, ids: seq<Fresh>, n: nat)
    requires n <= |events| == |ids|
  {
    && w.log == Map((e: Event) => Envelope(e), events[..n]) && w.committed == n
    && (w.session.Some? ==> w.session.value.position == n
                            && forall k :: k in w.session.value.window ==> HasKey(events[..n], k))
    && WrittenWith(w.store, events[..n], ids[..n])
  }

  lemma PlainRunNext(events: seq<Event>, ids: seq<Fresh>, n: nat)
    requires 0 < n <= |events| == |ids|
    ensures PlainRun(events[..n], ids[..n])
            == PlainRun(events[..n - 1], ids[..n - 1])
               + [Produce(Envelope(events[n - 1]))] + [Start] + [PollStep(Deliver(NoFault, ids[n - 1], CommitOk))]
  {
    assert events[..n][..n - 1] == events[..n - 1] && ids[..n][..n - 1] == ids[..n - 1];
  }

  lemma PlainlyRunOneMore(rt: Runtime, capacity: nat, schema: Event -> bool, w: World, events: seq<Event>, ids: seq<Fresh>, n: nat)
    requires 0 < n <= |events| && DistinctKeys(events) && AllStorable(events) && FreshIds(ids, |events|) && schema(events[n - 1])
    requires PlainlyRun(w, events, ids, n - 1)
    ensures var p := Apply(rt, capacity, schema, w, Produce(Envelope(events[n - 1])));
            var q := Apply(rt, capacity, schema, p, Start);
            PlainlyRun(Apply(rt, capacity, schema, q, PollStep(Deliver(NoFault, ids[n - 1], CommitOk))), events, ids, n)
  {
    WriteNext(w.store, events, ids, n - 1);
    PlainStep(rt, capacity, schema, w, events, n, ids[n - 1]);
  }

  lemma {:induction false} PlainRunWrites(rt: Runtime, capacity: nat, schema: Event -> bool, events: seq<Event>, ids: seq<Fresh>, n: nat)
    requires n <= |events| && DistinctKeys(events) && AllStorable(events) && FreshIds(ids, |events|)
    requires forall i :: 0 <= i < |events| ==> schema(events[i])
    ensures PlainlyRun(Run(rt, capacity, schema, PlainRun(events[..n], ids[..n])), events, ids, n)
  {
    if n == 0 {
      NothingRun(rt, capacity, schema, events, ids);
    } else {
      var before := PlainRun(events[..n - 1], ids[..n - 1]);
      PlainRunWrites(rt, capacity, schema, events, ids, n - 1);
      PlainRunNext(events, ids, n);
      RunThreeMore(rt, capacity, schema, before, Produce(Envelope(events[n - 1])), Start, PollStep(Deliver(NoFault, ids[n - 1], CommitOk)));
      PlainlyRunOneMore(rt, capacity, schema, Run(rt, capacity, schema, before), events, ids, n);
    }
  }

  lemma NothingRun(rt: Runtime, capacity: nat, schema: Event -> bool, events: seq<Event>, ids: seq<Fresh>)
    requires |ids| == |events|
    ensures PlainlyRun(Run(rt, capacity, schema, PlainRun(events[..0], ids[..0])), events, ids, 0)
  {
    assert Map((e: Event) => Envelope(e), events[..0]) == [];
  }

  lemma PlainStep(rt: Runtime, capacity: nat, schema: Event -> bool, w: World, events: seq<Event>, n: nat, id: Fresh)
    requires 0 < n <= |events| && DistinctKeys(events) && schema(events[n - 1])
    requires w.log == Map((e: Event) => Envelope(e), events[..n - 1]) && w.committed == n - 1
    requires w.session.Some? ==> w.session.value.position == n - 1
                                 && forall k :: k in w.session.value.window ==> HasKey(events[..n - 1], k)
    requires Attempt(w.store, events[n - 1], id, NoFault).result.Some?
    ensures var p := Apply(rt, capacity, schema, w, Produce(Envelope(events[n - 1])));
            var q := Apply(rt, capacity, schema, p, Start);
            var r := Apply(rt, capacity, schema, q, PollStep(Deliver(NoFault, id, CommitOk)));
            && r.log == Map((e: Event) => Envelope(e), events[..n]) && r.committed == n
            && (r.session.Some? ==> r.session.value.position == n
                                    && forall k :: k in r.session.value.window ==> HasKey(events[..n], k))
            && r.store == Attempt(w.store, events[n - 1], id, NoFault).store
  {
    var e := events[n - 1];
    var p := Apply(rt, capacity, schema, w, Produce(Envelope(e)));
    var q := Apply(rt, capacity, schema, p, Start);
    var window := q.session.value.window;
    assert !HasKey(events[..n - 1], e.key);
    assert e.key !in window;
    AfterRecordKeys(capacity, window, e.key);
    forall k | k in window || k == e.key ensures HasKey(events[..n], k) { LongerHasKey(events, n, k); }
    LongerLog(events, n);
  }

  lemma LongerHasKey(events: seq<Event>, n: nat, k: Text)
    requires 0 < n <= |events| && (HasKey(events[..n - 1], k) || k == events[n - 1].key)
    ensures HasKey(events[..n], k)
  {
    if k == events[n - 1].key {
      assert events[..n][n - 1].key == k;
    } else {
      var i :| 0 <= i < n - 1 && events[..n - 1][i].key == k;
      assert events[..n][i].key == k;
    }
  }

  lemma LongerLog(events: seq<Event>, n: nat)
    requires 0 < n <= |events|
    ensures Map((e: Event) => Envelope(e), events[..n]) == Map((e: Event) => Envelope(e), events[..n - 1]) + [Envelope(events[n - 1])]
  {}

  lemma {:induction false} KeyLastDecides(k: Key, a: int, b: int)
    requires KeyLeq(k + [[a]], k + [[b]])
    ensures a <= b
  {
    if |k| == 0 {
      assert k + [[a]] == [[a]] && k + [[b]] == [[b]];
      if a != b {
        assert [a] != [b] by { assert [a][0] != [b][0]; }
      }
    } else {
      assert (k + [[a]])[1..] == k[1..] + [[a]] && (k + [[b]])[1..] == k[1..] + [[b]];
      KeyLastDecides(k[1..], a, b);
    }
  }

  /** Where a pair stands among the sorted pairs of its domain. */
  ghost predicate StandsAt(s: Store, events: seq<Event>, d: Uuid, i: nat, p: nat)
    requires |s.provenance| == |s.evidence| == |events| && i < |events|
  {
    var es := SortBy(CarriedByEvidence, ForDomain(s, events, d));
    p < |es| && es[p] == Pair(s, events)[i]
  }

  /** Tied events stand in the order of their generated evidence ids. */
  lemma TiedByIds(s: Store, events: seq<Event>, d: Uuid, i: nat, j: nat) returns (p: nat, q: nat)
    requires Holds(s, events) && i < |events| && j < |events|
    requires DomainOf(events[i]) == d && DomainOf(events[j]) == d
    requires EventEvidenceKey(events[i]) == EventEvidenceKey(events[j])
    requires s.evidence[i].evidenceId < s.evidence[j].evidenceId
    ensures StandsAt(s, events, d, i, p) && StandsAt(s, events, d, j, q) && p < q
  {
    var cs := ForDomain(s, events, d);
    var es := SortBy(CarriedByEvidence, cs);
    var b, c := Pair(s, events)[i], Pair(s, events)[j];
    assert b in cs && c in cs;
    PairCoherent(s, events, d);
    SortFacts(CarriedByEvidence, cs);
    SortMembers(CarriedByEvidence, cs);
    p :| 0 <= p < |es| && es[p] == b;
    q :| 0 <= q < |es| && es[q] == c;
    TiedPlaces(es, p, q);
  }

  lemma TiedPlaces(es: seq<Carried>, p: nat, q: nat)
    requires SortedBy(CarriedByEvidence, es) && p < |es| && q < |es|
    requires RowsCarry(es[p].provenance, es[p].evidence, es[p].event) && RowsCarry(es[q].provenance, es[q].evidence, es[q].event)
    requires EventEvidenceKey(es[p].event) == EventEvidenceKey(es[q].event)
    requires es[p].evidence.evidenceId < es[q].evidence.evidenceId
    ensures p < q
  {
    KeysOfCarried(es[p]);
    KeysOfCarried(es[q]);
    if q < p {
      assert KeyLeq(CarriedByEvidence(es[q]), CarriedByEvidence(es[p]));
      KeyLastDecides(EventEvidenceKey(es[p].event), es[q].evidence.evidenceId, es[p].evidence.evidenceId);
    }
  }

  /** Distinct events have distinct stable evidence rows: their provenance tokens differ. */
  lemma StableEvidenceInjective(evs: seq<Event>, e: Event, f: Event)
    requires e in evs && f in evs
    requires var order := SortBy(EventProvenanceKey, evs); EventStableEvidence(order)(e) == EventStableEvidence(order)(f)
    ensures e == f
  {
    var order := SortBy(EventProvenanceKey, evs);
    SortMembers(EventProvenanceKey, evs);
    assert e in order && f in order;
    var i :| 0 <= i < |order| && order[i] == e;
    var j :| 0 <= j < |order| && order[j] == f;
    assert FirstIndex(order, e) < |order|;
  }

  lemma EqualArrangements(s: Store, t: Store, events: seq<Event>, d: Uuid)
    requires Holds(s, events) && Holds(t, events) && SameSnapshot(s, t, d)
    ensures Map(EventOf, SortBy(CarriedByEvidence, ForDomain(s, events, d)))
            == Map(EventOf, SortBy(CarriedByEvidence, ForDomain(t, events, d)))
  {
    CaptureShape(s, events, d);
    CaptureShape(t, events, d);
    EventsOfDomain(s, events, d);
    EventsOfDomain(t, events, d);
    var evs := OfDomain(events, d);
    var f := EventStableEvidence(SortBy(EventProvenanceKey, evs));
    var a := Map(EventOf, SortBy(CarriedByEvidence, ForDomain(s, events, d)));
    var b := Map(EventOf, SortBy(CarriedByEvidence, ForDomain(t, events, d)));
    assert Map(f, a) == Map(f, b);
    SortMembers(CarriedByEvidence, ForDomain(s, events, d));
    SortMembers(CarriedByEvidence, ForDomain(t, events, d));
    assert |a| == |Map(f, a)| && |b| == |Map(f, b)|;
    forall i | 0 <= i < |a| ensures a[i] == b[i] {
      ArrangedIn(s, events, d, i);
      ArrangedIn(t, events, d, i);
      assert Map(f, a)[i] == f(a[i]) && Map(f, b)[i] == f(b[i]);
      StableEvidenceInjective(evs, a[i], b[i]);
    }
  }

  lemma ArrangedIn(s: Store, events: seq<Event>, d: Uuid, i: nat)
    requires |s.provenance| == |s.evidence| == |events| && i < |ForDomain(s, events, d)|
    ensures Map(EventOf, SortBy(CarriedByEvidence, ForDomain(s, events, d)))[i] in OfDomain(events, d)
  {
    var cs := ForDomain(s, events, d);
    SortMembers(CarriedByEvidence, cs);
    var c := SortBy(CarriedByEvidence, cs)[i];
    assert c in SortBy(CarriedByEvidence, cs) && c in cs;
    EventsOfDomain(s, events, d);
    var k :| 0 <= k < |cs| && cs[k] == c;
    assert Map(EventOf, cs)[k] == c.event;
  }

  /** If the ids order a tied pair one way in s and the other way in t, the snapshots differ. */
  lemma OppositeIdsDiffer(s: Store, t: Store, events: seq<Event>, d: Uuid, i: nat, j: nat)
    requires Holds(s, events) && Holds(t, events) && i < |events| && j < |events|
    requires DomainOf(events[i]) == d && DomainOf(events[j]) == d
    requires EventEvidenceKey(events[i]) == EventEvidenceKey(events[j])
    requires s.evidence[i].evidenceId < s.evidence[j].evidenceId && t.evidence[j].evidenceId < t.evidence[i].evidenceId
    ensures !SameSnapshot(s, t, d)
  {
    if SameSnapshot(s, t, d) {
      EqualArrangements(s, t, events, d);
      var p, q := TiedByIds(s, events, d, i, j);
      var y, x := TiedByIds(t, events, d, j, i);
      var a := SortBy(CarriedByEvidence, ForDomain(s, events, d));
      var b := SortBy(CarriedByEvidence, ForDomain(t, events, d));
      assert Map(EventOf, a)[x] == Map(EventOf, b)[x] == events[i];
      assert Map(EventOf, a)[y] == Map(EventOf, b)[y] == events[j];
      SameEventSamePlace(s, events, d, p, x);
      SameEventSamePlace(s, events, d, q, y);
      assert false;
    }
  }

  lemma SameEventSamePlace(s: Store, events: seq<Event>, d: Uuid, p: nat, x: nat)
    requires Holds(s, events)
    requires var a := SortBy(CarriedByEvidence, ForDomain(s, events, d));
             p < |a| && x < |a| && a[p].event == a[x].event
    ensures p == x
  {
    var cs := ForDomain(s, events, d);
    var a := SortBy(CarriedByEvidence, cs);
    PairCoherent(s, events, d);
    SortFacts(CarriedByEvidence, cs);
    SortedCoherent(CarriedByEvidence, cs, d);
    assert a[p] in a && a[x] in a;
    assert NoRepeats(a);
    if p < x { NoRepeatsDistinct(a, p, x); }
    if x < p { NoRepeatsDistinct(a, x, p); }
  }

  lemma PlainRunHolds(rt: Runtime, capacity: nat, schema: Event -> bool, events: seq<Event>, ids: seq<Fresh>)
    requires DistinctKeys(events) && AllStorable(events) && FreshIds(ids, |events|)
    requires forall i :: 0 <= i < |events| ==> schema(events[i])
    ensures var w := Run(rt, capacity, schema, PlainRun(events, ids));
            WrittenWith(w.store, events, ids) && w.log == Map((e: Event) => Envelope(e), events) && w.committed == |events|
  {
    PlainRunWrites(rt, capacity, schema, events, ids, |events|);
    assert events[..|events|] == events && ids[..|events|] == ids;
  }

  /** A drained run whose log carries exactly these events, in any order and number. */
  ghost predicate RunOver(rt: Runtime, capacity: nat, schema: Event -> bool, events: seq<Event>, w: World) {
    && (exists steps :: w == Run(rt, capacity, schema, steps))
    && FullyCommitted(w) && forall e :: Envelope(e) in w.log <==> e in events
  }

  ghost predicate SameInEveryRun(rt: Runtime, capacity: nat, schema: Event -> bool, events: seq<Event>, d: Uuid) {
    forall v, w :: RunOver(rt, capacity, schema, events, v) && RunOver(rt, capacity, schema, events, w) ==>
      SameSnapshot(v.store, w.store, d)
  }

  lemma PlainRunIsRunOver(rt: Runtime, capacity: nat, schema: Event -> bool, order: seq<Event>, events: seq<Event>, ids: seq<Fresh>)
    requires DistinctKeys(order) && AllStorable(order) && FreshIds(ids, |order|)
    requires forall i :: 0 <= i < |order| ==> schema(order[i])
    requires forall e :: e in order <==> e in events
    ensures RunOver(rt, capacity, schema, events, Run(rt, capacity, schema, PlainRun(order, ids)))
  {
    PlainRunHolds(rt, capacity, schema, order, ids);
    var w := Run(rt, capacity, schema, PlainRun(order, ids));
    forall e ensures Envelope(e) in w.log <==> e in events {
      if e in order {
        var i :| 0 <= i < |order| && order[i] == e;
        assert w.log[i] == Envelope(e);
      }
      if Envelope(e) in w.log {
        var i :| 0 <= i < |w.log| && w.log[i] == Envelope(e);
        assert order[i] in order;
      }
    }
  }

  lemma TieInEvents(events: seq<Event>, d: Uuid) returns (i: nat, j: nat)
    requires DistinctKeys(events) && !NoTies(OfDomain(events, d))
    ensures i < j < |events| && DomainOf(events[i]) == d && DomainOf(events[j]) == d
    ensures EventEvidenceKey(events[i]) == EventEvidenceKey(events[j])
  {
    var evs := OfDomain(events, d);
    KeptHaveNoRepeats(events, d);
    var p, q :| 0 <= p < q < |evs| && EventEvidenceKey(evs[p]) == EventEvidenceKey(evs[q]);
    NoRepeatsDistinct(evs, p, q);
    var x := PlaceOf(events, d, p);
    var y := PlaceOf(events, d, q);
    i, j := if x < y then x else y, if x < y then y else x;
  }

  lemma PlaceOf(events: seq<Event>, d: Uuid, p: nat) returns (x: nat)
    requires p < |OfDomain(events, d)|
    ensures x < |events| && events[x] == OfDomain(events, d)[p] && DomainOf(events[x]) == d
  {
    assert OfDomain(events, d)[p] in OfDomain(events, d);
    x :| 0 <= x < |events| && events[x] == OfDomain(events, d)[p];
  }

  lemma KeptHaveNoRepeats(events: seq<Event>, d: Uuid)
    requires DistinctKeys(events)
    ensures NoRepeats(OfDomain(events, d))
  {
    DistinctNoRepeats(events);
    FilterCounts((e: Event) => DomainOf(e) == d, events);
  }

  lemma RunOverIsConsistent(rt: Runtime, capacity: nat, schema: Event -> bool, events: seq<Event>, w: World, d: Uuid)
    requires DistinctKeys(events) && RunOver(rt, capacity, schema, events, w)
    ensures EqualKeysEqualContent(w.log)
    ensures multiset(OfDomain(Firsts(w.log), d)) == multiset(OfDomain(events, d))
  {
    forall e, f | Envelope(e) in w.log && Envelope(f) in w.log && e.key == f.key ensures e == f {
      var i :| 0 <= i < |events| && events[i] == e;
      var j :| 0 <= j < |events| && events[j] == f;
    }
    FirstsDistinct(w.log);
    DistinctNoRepeats(Firsts(w.log));
    DistinctNoRepeats(events);
    FilterCounts((e: Event) => DomainOf(e) == d, Firsts(w.log));
    FilterCounts((e: Event) => DomainOf(e) == d, events);
    forall e ensures e in OfDomain(Firsts(w.log), d) <==> e in OfDomain(events, d) { FirstsMembers(w.log, e); }
    SameMembersSameMultiset(OfDomain(Firsts(w.log), d), OfDomain(events, d));
  }

  lemma NoTiesSameSnapshot(rt: Runtime, capacity: nat, schema: Event -> bool, events: seq<Event>, d: Uuid, v: World, w: World)
    requires DistinctKeys(events) && NoTies(OfDomain(events, d)) && OneSpelling(OfDomain(events, d))
    requires RunOver(rt, capacity, schema, events, v) && RunOver(rt, capacity, schema, events, w)
    ensures SameSnapshot(v.store, w.store, d)
  {
    RunOverIsConsistent(rt, capacity, schema, events, v, d);
    RunOverIsConsistent(rt, capacity, schema, events, w, d);
    var a, b := OfDomain(events, d), OfDomain(Firsts(v.log), d);
    DistinctNoRepeats(events);
    FilterCounts((e: Event) => DomainOf(e) == d, events);
    TiesIgnoreOrder(a, b);
    SpellingIgnoresOrder(a, b);
    var p :| v == Run(rt, capacity, schema, p);
    var q :| w == Run(rt, capacity, schema, q);
    RunsAreReproducible(rt, capacity, p, rt, capacity, q, schema, schema, d, v, w);
  }

  lemma SpellingIgnoresOrder(a: seq<Event>, b: seq<Event>)
    requires multiset(a) == multiset(b) && OneSpelling(a)
    ensures OneSpelling(b)
  {
    forall e | e in b ensures e in a {
      assert e in multiset(b);
    }
  }

  lemma TiesDiffer(rt: Runtime, capacity: nat, schema: Event -> bool, events: seq<Event>, d: Uuid)
    requires DistinctKeys(events) && AllStorable(events) && forall i :: 0 <= i < |events| ==> schema(events[i])
    requires !NoTies(OfDomain(events, d))
    ensures !SameInEveryRun(rt, capacity, schema, events, d)
  {
    var i, j := TieInEvents(events, d);
    var up := seq(|events|, k requires 0 <= k < |events| => Fresh(k, k, 0));
    var down := seq(|events|, k requires 0 <= k < |events| => Fresh(k, -k, 0));
    var v := RunWith(rt, capacity, schema, events, up);
    var w := RunWith(rt, capacity, schema, events, down);
    OppositeIdsDiffer(v.store, w.store, events, d, i, j);
  }

  lemma RunWith(rt: Runtime, capacity: nat, schema: Event -> bool, events: seq<Event>, ids: seq<Fresh>) returns (w: World)
    requires DistinctKeys(events) && AllStorable(events) && FreshIds(ids, |events|)
    requires forall i :: 0 <= i < |events| ==> schema(events[i])
    ensures RunOver(rt, capacity, schema, events, w) && WrittenWith(w.store, events, ids)
  {
    w := Run(rt, capacity, schema, PlainRun(events, ids));
    PlainRunHolds(rt, capacity, schema, events, ids);
    PlainRunIsRunOver(rt, capacity, schema, events, events, ids);
  }

  // ---- Two spellings -----------------------------------------------------------------------------

  function ToFront(events: seq<Event>, i: nat): seq<Event>
    requires i < |events|
  {
    [events[i]] + events[..i] + events[i + 1..]
  }

  /** Storable by position: castable, and fit to come first or preceded by its domain. */
  ghost predicate Follows(events: seq<Event>, i: nat)
    requires i < |events|
  {
    Castable(events[i]) && (MayComeFirst(events[i]) || exists j :: 0 <= j < i && DomainOf(events[j]) == DomainOf(events[i]))
  }

  lemma StorableIffFollows(events: seq<Event>, i: nat)
    requires i < |events|
    ensures StorableAt(events, i) <==> Follows(events, i)
  {
    var about := OfDomain(events[..i], DomainOf(events[i]));
    if |about| > 0 {
      assert about[0] in about;
      var j :| 0 <= j < i && events[..i][j] == about[0];
      assert DomainOf(events[j]) == DomainOf(events[i]);
    }
    if j :| 0 <= j < i && DomainOf(events[j]) == DomainOf(events[i]) {
      assert events[..i][j] in about;
    }
  }

  lemma ToFrontAt(events: seq<Event>, i: nat, k: nat)
    requires i < |events| && k < |events|
    ensures |ToFront(events, i)| == |events|
    ensures ToFront(events, i)[if k == i then 0 else if k < i then k + 1 else k] == events[k]
  {}

  lemma ToFrontStorable(events: seq<Event>, i: nat)
    requires i < |events| && AllStorable(events) && MayComeFirst(events[i])
    ensures AllStorable(ToFront(events, i))
  {
    var order := ToFront(events, i);
    forall m | 0 <= m < |order| ensures StorableAt(order, m) {
      var k := if m == 0 then i else if m <= i then m - 1 else m;
      ToFrontAt(events, i, k);
      assert order[m] == events[k] && StorableAt(events, k);
      StorableIffFollows(events, k);
      StorableIffFollows(order, m);
      if m > 0 && !MayComeFirst(events[k]) {
        var j :| 0 <= j < k && DomainOf(events[j]) == DomainOf(events[k]);
        ToFrontAt(events, i, j);
        var j' := if j == i then 0 else if j < i then j + 1 else j;
        assert 0 <= j' < m && DomainOf(order[j']) == DomainOf(order[m]);
      }
    }
  }

  lemma ToFrontMembers(events: seq<Event>, i: nat)
    requires i < |events| && DistinctKeys(events)
    ensures DistinctKeys(ToFront(events, i)) && forall e :: e in ToFront(events, i) <==> e in events
  {
    forall e ensures e in ToFront(events, i) <==> e in events {
      assert events == events[..i] + [events[i]] + events[i + 1..];
    }
  }

  /** The domain row shows the spelling of the event that came first. */
  lemma FrontSpelling(s: Store, events: seq<Event>, i: nat, d: Uuid)
    requires i < |events| && Holds(s, ToFront(events, i)) && DomainOf(events[i]) == d
    ensures Capture(s, d).Some?
    ensures Capture(s, d).value.stable.domains == [StableDomain(NormalisedUrl(events[i].domainId), Ascii("under_review"))]
  {
    var order := ToFront(events, i);
    CaptureShape(s, order, d);
    EventsOfDomain(s, order, d);
    assert OfDomain(order, d)[0] == events[i];
  }

  lemma SpellingsDiffer(rt: Runtime, capacity: nat, schema: Event -> bool, events: seq<Event>, d: Uuid)
    requires DistinctKeys(events) && AllStorable(events) && forall i :: 0 <= i < |events| ==> schema(events[i])
    requires !OneSpelling(OfDomain(events, d))
    ensures !SameInEveryRun(rt, capacity, schema, events, d)
  {
    var e, f :| e in OfDomain(events, d) && f in OfDomain(events, d) && MayComeFirst(e) && MayComeFirst(f) && e.domainId != f.domainId;
    var i: nat :| i < |events| && events[i] == e;
    var j: nat :| j < |events| && events[j] == f;
    var v := FrontRun(rt, capacity, schema, events, i, d);
    var w := FrontRun(rt, capacity, schema, events, j, d);
    if NormalisedUrl(e.domainId) == NormalisedUrl(f.domainId) { NormalisedUrlInjective(e.domainId, f.domainId); }
    assert Capture(v.store, d).value.stable.domains[0] != Capture(w.store, d).value.stable.domains[0];
  }

  lemma FrontRun(rt: Runtime, capacity: nat, schema: Event -> bool, events: seq<Event>, i: nat, d: Uuid) returns (w: World)
    requires DistinctKeys(events) && AllStorable(events) && forall k :: 0 <= k < |events| ==> schema(events[k])
    requires i < |events| && MayComeFirst(events[i]) && DomainOf(events[i]) == d
    ensures RunOver(rt, capacity, schema, events, w) && Capture(w.store, d).Some?
    ensures Capture(w.store, d).value.stable.domains == [StableDomain(NormalisedUrl(events[i].domainId), Ascii("under_review"))]
  {
    var order := ToFront(events, i);
    ToFrontStorable(events, i);
    ToFrontMembers(events, i);
    forall k | 0 <= k < |order| ensures schema(order[k]) { assert order[k] in events; }
    var ids := seq(|order|, k requires 0 <= k < |order| => Fresh(k, k, 0));
    w := Run(rt, capacity, schema, PlainRun(order, ids));
    PlainRunHolds(rt, capacity, schema, order, ids);
    PlainRunIsRunOver(rt, capacity, schema, order, events, ids);
    FrontSpelling(w.store, events, i, d);
  }

  /** The exact condition of the reproducibility claim. Given events in some order that the
      database takes, all drained runs over them, in every order and with every duplication,
      fault, generated id and clock, show one stable snapshot of a domain if and only if no two
      of its events agree on observed_at, signal_class and source_url, and all of its events
      that may come first spell its id in one way. */
  lemma ReproducibleIffNoTies(rt: Runtime, capacity: nat, schema: Event -> bool, events: seq<Event>, d: Uuid)
    requires DistinctKeys(events) && AllStorable(events) && forall i :: 0 <= i < |events| ==> schema(events[i])
    ensures SameInEveryRun(rt, capacity, schema, events, d)
            <==> NoTies(OfDomain(events, d)) && OneSpelling(OfDomain(events, d))
  {
    if !NoTies(OfDomain(events, d)) {
      TiesDiffer(rt, capacity, schema, events, d);
    } else if !OneSpelling(OfDomain(events, d)) {
      SpellingsDiffer(rt, capacity, schema, events, d);
    } else {
      forall v, w | RunOver(rt, capacity, schema, events, v) && RunOver(rt, capacity, schema, events, w)
        ensures SameSnapshot(v.store, w.store, d)
      {
        NoTiesSameSnapshot(rt, capacity, schema, events, d, v, w);
      }
    }
  }

  lemma PairOfDomain(e: Event, f: Event)
    requires DomainOf(e) == DomainOf(f)
    ensures OfDomain([e], DomainOf(e)) == [e] && OfDomain([e, f], DomainOf(e)) == [e, f]
  {
    assert [e, f] == [e] + [f] && [e] == [] + [e];
    OfDomainAppend([], e, DomainOf(e));
    OfDomainAppend([e], f, DomainOf(e));
  }

  lemma PairStorable(e: Event, f: Event)
    requires Castable(e) && Castable(f) && DomainOf(e) == DomainOf(f) && MayComeFirst(e)
    ensures AllStorable([e, f])
  {
    PairOfDomain(e, f);
    assert [e, f] == [e] + [f] && [e] == [] + [e];
    AllStorableAppend([], e);
    AllStorableAppend([e], f);
  }

  lemma PairDistinct(e: Event, f: Event)
    requires e.key == [0] && f.key == [1]
    ensures DistinctKeys([e, f])
  {
    assert e.key[0] != f.key[0];
  }

  lemma PairTies(e: Event, f: Event)
    requires DomainOf(e) == DomainOf(f)
    ensures NoTies(OfDomain([e, f], DomainOf(e))) <==> EventEvidenceKey(e) != EventEvidenceKey(f)
  {
    PairOfDomain(e, f);
    assert [e, f][0] == e && [e, f][1] == f;
  }

  lemma PairSpellings(e: Event, f: Event)
    requires DomainOf(e) == DomainOf(f) && MayComeFirst(e)
    ensures OneSpelling(OfDomain([e, f], DomainOf(e))) <==> !MayComeFirst(f) || e.domainId == f.domainId
  {
    PairOfDomain(e, f);
    assert e in [e, f] && f in [e, f];
  }

  /** Two events may tie under two spellings of one domain: by their texts they are about
      different domains, in the database about one, and their runs differ. */
  lemma TwoSpellingsCanTie(rt: Runtime, capacity: nat, schema: Event -> bool) returns (e: Event, f: Event)
    requires forall x :: schema(x)
    ensures e.domainId != f.domainId && DomainOf(e) == DomainOf(f) && DistinctKeys([e, f]) && AllStorable([e, f])
    ensures !NoTies(OfDomain([e, f], DomainOf(e))) && OneSpelling(OfDomain([e, f], DomainOf(e)))
    ensures !SameInEveryRun(rt, capacity, schema, [e, f], DomainOf(e))
  {
    var own, other := TwoSpellings();
    e, f := SampleEvent([0], own), SampleEvent([1], other);
    NormalisedIffLowerCase(own);
    NormalisedIffLowerCase(other);
    PairDistinct(e, f);
    PairTies(e, f);
    PairSpellings(e, f);
    PairStorable(e, f);
    ReproducibleIffNoTies(rt, capacity, schema, [e, f], DomainOf(e));
  }

  /** Without any tie, two spellings that may both come first are enough: the digits with and
      without hyphens. */
  lemma TwoSpellingsShow(rt: Runtime, capacity: nat, schema: Event -> bool) returns (e: Event, f: Event)
    requires forall x :: schema(x)
    ensures DomainOf(e) == DomainOf(f) && DistinctKeys([e, f]) && AllStorable([e, f]) && MayComeFirst(e) && MayComeFirst(f)
    ensures NoTies(OfDomain([e, f], DomainOf(e))) && !OneSpelling(OfDomain([e, f], DomainOf(e)))
    ensures !SameInEveryRun(rt, capacity, schema, [e, f], DomainOf(e))
  {
    var own, _ := TwoSpellings();
    var u := ReadUuid(own).value;
    ReadIsUuid(own);
    PlainSpelling(u);
    e, f := SampleEvent([0], own), SampleEvent([1], PlainText(u.digits)).(observedAt := 1);
    NormalisedIffLowerCase(e.domainId);
    NormalisedIffLowerCase(f.domainId);
    PairDistinct(e, f);
    PairTies(e, f);
    PairSpellings(e, f);
    PairStorable(e, f);
    assert EventEvidenceKey(e)[0][0] != EventEvidenceKey(f)[0][0];
    ReproducibleIffNoTies(rt, capacity, schema, [e, f], DomainOf(e));
  }

  // ---- Equal snapshots mean equal rows up to renaming ----------------------------------------------

  ghost predicate Injective(m: map<int, int>) {
    forall x, y :: x in m && y in m && m[x] == m[y] ==> x == y
  }

  /** The maps carry the captured rows a onto the captured rows b, one to one, everything else
      except the clock columns being equal. */
  ghost predicate Renames(a: Store, b: Store, provenanceIds: map<int, int>, evidenceIds: map<int, int>) {
    && Injective(provenanceIds) && Injective(evidenceIds)
    && |a.domains| == |b.domains| && |a.provenance| == |b.provenance| && |a.evidence| == |b.evidence|
    && (forall i :: 0 <= i < |a.domains| ==>
          b.domains[i] == a.domains[i].(createdAt := b.domains[i].createdAt, updatedAt := b.domains[i].updatedAt))
    && (forall i :: 0 <= i < |a.provenance| ==>
          var p := a.provenance[i];
          && p.provenanceId in provenanceIds
          && b.provenance[i] == p.(provenanceId := provenanceIds[p.provenanceId], createdAt := b.provenance[i].createdAt))
    && (forall i :: 0 <= i < |a.evidence| ==>
          var e := a.evidence[i];
          && e.evidenceId in evidenceIds && e.provenanceId in provenanceIds
          && b.evidence[i] == e.(evidenceId := evidenceIds[e.evidenceId], provenanceId := provenanceIds[e.provenanceId],
                                 recordedAt := b.evidence[i].recordedAt))
  }

  ghost predicate CapturedFit(raw: Store, d: Uuid) {
    && (forall i, j :: 0 <= i < j < |raw.provenance| ==> raw.provenance[i].provenanceId != raw.provenance[j].provenanceId)
    && (forall i, j :: 0 <= i < j < |raw.evidence| ==> raw.evidence[i].evidenceId != raw.evidence[j].evidenceId)
    && (forall i :: 0 <= i < |raw.domains| ==> raw.domains[i].domainId == d)
    && (forall i :: 0 <= i < |raw.evidence| ==> Resolves(raw, raw.evidence[i]) && raw.evidence[i].domainId == d)
  }

  lemma SortedNoRepeats(key: Carried -> Key, cs: seq<Carried>)
    requires NoRepeats(cs)
    ensures NoRepeats(SortBy(key, cs))
  {
    SortFacts(key, cs);
  }

  lemma CapturedRowsFit(s: Store, events: seq<Event>, d: Uuid)
    requires Holds(s, events)
    ensures CapturedFit(Query(s, d), d)
  {
    var cs := ForDomain(s, events, d);
    var ps, es := SortBy(CarriedByProvenance, cs), SortBy(CarriedByEvidence, cs);
    PairCoherent(s, events, d);
    ReadsArePairs(s, events, d);
    DomainsRead(s, events, d);
    CaptureShape(s, events, d);
    PairsFit(Query(s, d), cs, ps, es, d);
  }

  lemma PairsFit(raw: Store, cs: seq<Carried>, ps: seq<Carried>, es: seq<Carried>, d: Uuid)
    requires Coherent(cs, d) && NoRepeats(cs)
    requires ps == SortBy(CarriedByProvenance, cs) && es == SortBy(CarriedByEvidence, cs)
    requires raw.provenance == Map(ProvenanceOf, ps) && raw.evidence == Map(EvidenceOf, es)
    requires forall i :: 0 <= i < |raw.domains| ==> raw.domains[i].domainId == d
    requires forall i :: 0 <= i < |raw.evidence| ==> Resolves(raw, raw.evidence[i])
    ensures CapturedFit(raw, d)
  {
    SortMembers(CarriedByProvenance, cs);
    SortMembers(CarriedByEvidence, cs);
    SortedNoRepeats(CarriedByProvenance, cs);
    SortedNoRepeats(CarriedByEvidence, cs);
    forall i, j | 0 <= i < j < |ps| ensures ps[i].provenance.provenanceId != ps[j].provenance.provenanceId {
      NoRepeatsDistinct(ps, i, j);
      assert ps[i] in ps && ps[j] in ps;
    }
    forall i, j | 0 <= i < j < |es| ensures es[i].evidence.evidenceId != es[j].evidence.evidenceId {
      NoRepeatsDistinct(es, i, j);
      assert es[i] in es && es[j] in es;
    }
    forall i | 0 <= i < |es| ensures raw.evidence[i].domainId == d {
      assert es[i] in es;
      assert RowsCarry(es[i].provenance, es[i].evidence, es[i].event);
    }
  }

  /** The positional map between two duplicate-free id lists. */
  ghost function Pairing(a: seq<int>, b: seq<int>): (m: map<int, int>)
    requires |a| == |b|
    requires forall i, j :: 0 <= i < j < |a| ==> a[i] != a[j]
    ensures forall i :: 0 <= i < |a| ==> a[i] in m && m[a[i]] == b[i]
    ensures forall x :: x in m ==> x in a
  {
    map i | 0 <= i < |a| :: a[i] := b[i]
  }

  lemma PairingInjective(a: seq<int>, b: seq<int>)
    requires |a| == |b|
    requires forall i, j :: 0 <= i < j < |a| ==> a[i] != a[j]
    requires forall i, j :: 0 <= i < j < |b| ==> b[i] != b[j]
    ensures Injective(Pairing(a, b))
  {
    var m := Pairing(a, b);
    forall x, y | x in m && y in m && m[x] == m[y] ensures x == y {
      var i :| 0 <= i < |a| && a[i] == x;
      var j :| 0 <= j < |a| && a[j] == y;
      assert b[i] == b[j];
    }
  }

  /** The map takes each id to the id in the same place. */
  ghost predicate Carries(m: map<int, int>, xs: seq<int>, ys: seq<int>) {
    |xs| == |ys| && forall i :: 0 <= i < |xs| ==> xs[i] in m && m[xs[i]] == ys[i]
  }

  ghost predicate AllDistinct(xs: seq<int>) {
    forall i, j :: 0 <= i < j < |xs| ==> xs[i] != xs[j]
  }

  lemma IdsPair(xs: seq<int>, ys: seq<int>) returns (m: map<int, int>)
    requires |xs| == |ys| && AllDistinct(xs) && AllDistinct(ys)
    ensures Injective(m) && Carries(m, xs, ys)
  {
    m := Pairing(xs, ys);
    PairingInjective(xs, ys);
  }

  function EvidenceIds(rows: seq<EvidenceRow>): seq<int> {
    Map((r: EvidenceRow) => r.evidenceId, rows)
  }

  lemma CapturedIdsDistinct(a: Store, d: Uuid)
    requires CapturedFit(a, d)
    ensures AllDistinct(ProvenanceIds(a.provenance)) && AllDistinct(EvidenceIds(a.evidence))
    ensures |StablePart(a).provenance| == |a.provenance| && |StablePart(a).evidence| == |a.evidence|
  {}

  lemma StableRowsRename(a: Store, b: Store, d: Uuid, pm: map<int, int>, em: map<int, int>)
    requires CapturedFit(a, d) && CapturedFit(b, d) && StablePart(a) == StablePart(b)
    requires Injective(pm) && Injective(em)
    requires Carries(pm, ProvenanceIds(a.provenance), ProvenanceIds(b.provenance))
    requires Carries(em, EvidenceIds(a.evidence), EvidenceIds(b.evidence))
    ensures Renames(a, b, pm, em)
  {
    assert forall i :: 0 <= i < |a.provenance| ==>
      ProvenanceIds(a.provenance)[i] == a.provenance[i].provenanceId && ProvenanceIds(b.provenance)[i] == b.provenance[i].provenanceId;
    assert forall i :: 0 <= i < |a.evidence| ==>
      EvidenceIds(a.evidence)[i] == a.evidence[i].evidenceId && EvidenceIds(b.evidence)[i] == b.evidence[i].evidenceId;
    StableRowsRenameBy(a, b, d, pm, em);
  }

  lemma StableRowsRenameBy(a: Store, b: Store, d: Uuid, pm: map<int, int>, em: map<int, int>)
    requires CapturedFit(a, d) && CapturedFit(b, d) && StablePart(a) == StablePart(b)
    requires Injective(pm) && Injective(em)
    requires |a.provenance| == |b.provenance| && forall i :: 0 <= i < |a.provenance| ==>
               a.provenance[i].provenanceId in pm && pm[a.provenance[i].provenanceId] == b.provenance[i].provenanceId
    requires |a.evidence| == |b.evidence| && forall i :: 0 <= i < |a.evidence| ==>
               a.evidence[i].evidenceId in em && em[a.evidence[i].evidenceId] == b.evidence[i].evidenceId
    ensures Renames(a, b, pm, em)
  {
    var s, t := StablePart(a), StablePart(b);
    assert |a.domains| == |s.domains| == |t.domains| == |b.domains|;
    forall i | 0 <= i < |a.domains|
      ensures b.domains[i] == a.domains[i].(createdAt := b.domains[i].createdAt, updatedAt := b.domains[i].updatedAt)
    {
      assert s.domains[i] == t.domains[i];
    }
    forall i | 0 <= i < |a.provenance|
      ensures StableOfProvenance(a.provenance[i]) == StableOfProvenance(b.provenance[i])
    {
      assert s.provenance[i] == t.provenance[i];
    }
    forall i | 0 <= i < |a.evidence|
      ensures a.evidence[i].provenanceId in pm && pm[a.evidence[i].provenanceId] == b.evidence[i].provenanceId
      ensures Rewrite(a, a.evidence[i]) == Rewrite(b, b.evidence[i])
    {
      assert s.evidence[i] == t.evidence[i];
      assert Resolves(a, a.evidence[i]) && Resolves(b, b.evidence[i]);
      var k := Rewrite(a, a.evidence[i]).provenanceRef;
      assert a.provenance[k].provenanceId == a.evidence[i].provenanceId;
      assert b.provenance[k].provenanceId == b.evidence[i].provenanceId;
    }
  }

  /** Snapshot soundness: if two written stores show the same stable snapshot, a one-to-one
      renaming of generated ids carries the one's captured rows onto the other's. */
  lemma EqualSnapshotsAreRenamings(s1: Store, events1: seq<Event>, s2: Store, events2: seq<Event>, d: Uuid)
    requires Holds(s1, events1) && Holds(s2, events2) && SameSnapshot(s1, s2, d)
    ensures exists pm, em :: Renames(Query(s1, d), Query(s2, d), pm, em)
  {
    var a, b := Query(s1, d), Query(s2, d);
    CapturedRowsFit(s1, events1, d);
    CapturedRowsFit(s2, events2, d);
    CapturedIdsDistinct(a, d);
    CapturedIdsDistinct(b, d);
    var pm := IdsPair(ProvenanceIds(a.provenance), ProvenanceIds(b.provenance));
    var em := IdsPair(EvidenceIds(a.evidence), EvidenceIds(b.evidence));
    StableRowsRename(a, b, d, pm, em);
  }
}
