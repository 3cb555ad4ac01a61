/** The reproducibility snapshot of one domain's rows: ordered reads, the split into stable
    and volatile columns, and foreign keys rewritten to positions among the captured rows. */
module Snapshot {
  import opened Sorting
  import opened Wrappers
  import opened Uuids
  import opened EvidenceStore

  // ---- The captured shape -----------------------------------------------------------------

  datatype StableDomain = StableDomain(normalisedUrl: Text, status: Text)
  datatype StableProvenance = StableProvenance(source: Text, methodText: Text, observedAt: int, contributor: Option<Text>)
  datatype StableEvidence = StableEvidence(
    signalClass: Text, source: Text, methodText: Text, sourceUrl: Text, observedAt: int, observedValue: Text,
    domainRef: nat, provenanceRef: nat)
  datatype Stable = Stable(domains: seq<StableDomain>, provenance: seq<StableProvenance>, evidence: seq<StableEvidence>)

  datatype VolatileDomain = VolatileDomain(domainId: Uuid, createdAt: int, updatedAt: int)
  datatype VolatileProvenance = VolatileProvenance(provenanceId: int, createdAt: int)
  datatype VolatileEvidence = VolatileEvidence(evidenceId: int, provenanceId: int, domainId: Uuid, recordedAt: int)
  datatype Volatile = Volatile(
    domains: seq<VolatileDomain>, provenance: seq<VolatileProvenance>, evidence: seq<VolatileEvidence>)

  datatype Captured = Captured(stable: Stable, volatile: Volatile)

  // ---- The three ordered reads ---------------------------------------------------------------

  function DomainKey(r: DomainRow): Key { [r.domainId.digits] }

  function EvidenceKey(r: EvidenceRow): Key { [[r.observedAt], r.signalClass, r.sourceUrl, [r.evidenceId]] }

  function ProvenanceKey(r: ProvenanceRow): Key { [[r.observedAt], r.methodText, [r.provenanceId]] }

  /** provenance JOIN evidence, restricted to the evidence of one domain. */
  function JoinDomain(provenance: seq<ProvenanceRow>, evidence: seq<EvidenceRow>, d: Uuid): seq<ProvenanceRow> {
    if |provenance| == 0 then []
    else
      var p := provenance[0];
      var hits := Filter((e: EvidenceRow) => e.provenanceId == p.provenanceId && e.domainId == d, evidence);
      seq(|hits|, i => p) + JoinDomain(provenance[1..], evidence, d)
  }

  function DomainIs(d: Uuid): DomainRow -> bool { (r: DomainRow) => r.domainId == d }
  function EvidenceIn(d: Uuid): EvidenceRow -> bool { (r: EvidenceRow) => r.domainId == d }

  /** The rows read for one domain, in the order they are read. */
  function Query(s: Store, d: Uuid): Store {
    Store(SortBy(DomainKey, Filter(DomainIs(d), s.domains)),
          SortBy(ProvenanceKey, JoinDomain(s.provenance, s.evidence, d)),
          SortBy(EvidenceKey, Filter(EvidenceIn(d), s.evidence)))
  }

  // ---- Splitting and rewriting ------------------------------------------------------------------

  function DomainIds(rows: seq<DomainRow>): seq<Uuid> { Map((r: DomainRow) => r.domainId, rows) }
  function ProvenanceIds(rows: seq<ProvenanceRow>): seq<int> { Map((r: ProvenanceRow) => r.provenanceId, rows) }

  /** The position of the first occurrence of x, or the length if there is none. */
  function FirstIndex<T(==)>(s: seq<T>, x: T): (i: nat)
    ensures i <= |s|
    ensures i < |s| ==> s[i] == x
    ensures forall j :: 0 <= j < i ==> s[j] != x
  {
    if |s| == 0 || s[0] == x then 0 else 1 + FirstIndex(s[1..], x)
  }

  function StableOfDomain(r: DomainRow): StableDomain { StableDomain(r.normalisedUrl, r.status) }

  function StableOfProvenance(r: ProvenanceRow): StableProvenance {
    StableProvenance(r.source, r.methodText, r.observedAt, r.contributor)
  }

  function StableOfEvidence(r: EvidenceRow, domainRef: nat, provenanceRef: nat): StableEvidence {
    StableEvidence(r.signalClass, r.source, r.methodText, r.sourceUrl, r.observedAt, r.observedValue, domainRef, provenanceRef)
  }

  predicate Resolves(raw: Store, r: EvidenceRow) {
    FirstIndex(DomainIds(raw.domains), r.domainId) < |raw.domains|
    && FirstIndex(ProvenanceIds(raw.provenance), r.provenanceId) < |raw.provenance|
  }

  function Rewrite(raw: Store, r: EvidenceRow): StableEvidence {
    StableOfEvidence(r, FirstIndex(DomainIds(raw.domains), r.domainId),
                     FirstIndex(ProvenanceIds(raw.provenance), r.provenanceId))
  }

  function StablePart(raw: Store): Stable {
    Stable(Map(StableOfDomain, raw.domains), Map(StableOfProvenance, raw.provenance),
           Map((r: EvidenceRow) => Rewrite(raw, r), raw.evidence))
  }

  function VolatilePart(raw: Store): Volatile {
    Volatile(Map((r: DomainRow) => VolatileDomain(r.domainId, r.createdAt, r.updatedAt), raw.domains),
             Map((r: ProvenanceRow) => VolatileProvenance(r.provenanceId, r.createdAt), raw.provenance),
             Map((r: EvidenceRow) => VolatileEvidence(r.evidenceId, r.provenanceId, r.domainId, r.recordedAt), raw.evidence))
  }

  /** The snapshot, or None when a foreign key points at no captured row. */
  function Capture(s: Store, d: Uuid): Option<Captured> {
    var raw := Query(s, d);
    if forall i :: 0 <= i < |raw.evidence| ==> Resolves(raw, raw.evidence[i])
    then Some(Captured(StablePart(raw), VolatilePart(raw)))
    else None
  }

  // ---- The capturing procedure ---------------------------------------------------------------------

  method ResolveReference<T(==)>(ids: seq<T>, value: T) returns (index: Option<nat>)
    ensures index == if FirstIndex(ids, value) < |ids| then Some(FirstIndex(ids, value)) else None
  {
    for i := 0 to |ids|
      invariant forall j :: 0 <= j < i ==> ids[j] != value
    {
      if ids[i] == value {
        assert FirstIndex(ids, value) == i;
        return Some(i);
      }
    }
    return None;
  }

  method SplitDomains(rows: seq<DomainRow>) returns (stable: seq<StableDomain>, volatile: seq<VolatileDomain>)
    ensures stable == StablePart(Store(rows, [], [])).domains && volatile == VolatilePart(Store(rows, [], [])).domains
  {
    stable, volatile := [], [];
    for i := 0 to |rows|
      invariant stable == StablePart(Store(rows, [], [])).domains[..i]
      invariant volatile == VolatilePart(Store(rows, [], [])).domains[..i]
    {
      stable := stable + [StableOfDomain(rows[i])];
      volatile := volatile + [VolatileDomain(rows[i].domainId, rows[i].createdAt, rows[i].updatedAt)];
    }
  }

  method SplitProvenance(rows: seq<ProvenanceRow>)
    returns (stable: seq<StableProvenance>, volatile: seq<VolatileProvenance>)
    ensures stable == StablePart(Store([], rows, [])).provenance && volatile == VolatilePart(Store([], rows, [])).provenance
  {
    stable, volatile := [], [];
    for i := 0 to |rows|
      invariant stable == StablePart(Store([], rows, [])).provenance[..i]
      invariant volatile == VolatilePart(Store([], rows, [])).provenance[..i]
    {
      stable := stable + [StableOfProvenance(rows[i])];
      volatile := volatile + [VolatileProvenance(rows[i].provenanceId, rows[i].createdAt)];
    }
  }

  method SplitEvidence(raw: Store)
    returns (ok: bool, stable: seq<StableEvidence>, volatile: seq<VolatileEvidence>)
    ensures ok <==> forall i :: 0 <= i < |raw.evidence| ==> Resolves(raw, raw.evidence[i])
    ensures ok ==> stable == StablePart(raw).evidence && volatile == VolatilePart(raw).evidence
  {
    ok, stable, volatile := true, [], [];
    ghost var allStable, allVolatile := StablePart(raw).evidence, VolatilePart(raw).evidence;
    for i := 0 to |raw.evidence|
      invariant stable == allStable[..i] && volatile == allVolatile[..i]
      invariant ok && forall j :: 0 <= j < i ==> Resolves(raw, raw.evidence[j])
    {
      var row := raw.evidence[i];
      var domainRef := ResolveReference(DomainIds(raw.domains), row.domainId);
      var provenanceRef := ResolveReference(ProvenanceIds(raw.provenance), row.provenanceId);
      if domainRef.None? || provenanceRef.None? {
        assert !Resolves(raw, raw.evidence[i]);
        return false, [], [];
      }
      assert allStable[i] == StableOfEvidence(row, domainRef.value, provenanceRef.value);
      stable := stable + [StableOfEvidence(row, domainRef.value, provenanceRef.value)];
      volatile := volatile + [VolatileEvidence(row.evidenceId, row.provenanceId, row.domainId, row.recordedAt)];
    }
  }

  /** Capture from the live store. None is an error: an id that the uuid column does not read,
      or a dangling reference. */
  method CaptureSnapshot(store: CanonicalStore, domainId: Text) returns (r: Option<Captured>)
    ensures r == match ReadUuid(domainId) case None => None case Some(d) => Capture(store.View(), d)
  {
    var id := ReadUuid(domainId);
    if id.None? { return None; }
    var raw := Query(Store(store.domains, store.provenance, store.evidence), id.value);
    var stableDomains, volatileDomains := SplitDomains(raw.domains);
    var stableProvenance, volatileProvenance := SplitProvenance(raw.provenance);
    var ok, stableEvidence, volatileEvidence := SplitEvidence(raw);
    if !ok { return None; }
    return Some(Captured(Stable(stableDomains, stableProvenance, stableEvidence),
                         Volatile(volatileDomains, volatileProvenance, volatileEvidence)));
  }

  // ---- Rows and the events they carry ------------------------------------------------------------------

  /** An event with the row pair that carries it. */
  datatype Carried = Carried(event: Event, provenance: ProvenanceRow, evidence: EvidenceRow)

  ghost function Pair(s: Store, events: seq<Event>): (r: seq<Carried>)
    requires |s.provenance| == |s.evidence| == |events|
    ensures |r| == |events|
  {
    seq(|events|, i requires 0 <= i < |events| => Carried(events[i], s.provenance[i], s.evidence[i]))
  }

  function InDomain(d: Uuid): Carried -> bool { (c: Carried) => DomainOf(c.event) == d }
  function EventOf(c: Carried): Event { c.event }
  function ProvenanceOf(c: Carried): ProvenanceRow { c.provenance }
  function EvidenceOf(c: Carried): EvidenceRow { c.evidence }
  function CarriedByProvenance(c: Carried): Key { ProvenanceKey(c.provenance) }
  function CarriedByEvidence(c: Carried): Key { EvidenceKey(c.evidence) }

  ghost function ForDomain(s: Store, events: seq<Event>, d: Uuid): seq<Carried>
    requires |s.provenance| == |s.evidence| == |events|
  {
    Filter(InDomain(d), Pair(s, events))
  }

  /** What the pairs of a domain satisfy, whatever the store they came from and in any order:
      each is told apart by any one of its ids and by its key. */
  ghost predicate Coherent(cs: seq<Carried>, d: Uuid) {
    && (forall c :: c in cs ==> RowsCarry(c.provenance, c.evidence, c.event) && DomainOf(c.event) == d)
    && (forall b, c :: b in cs && c in cs
                       && (b.provenance.provenanceId == c.provenance.provenanceId
                           || b.evidence.evidenceId == c.evidence.evidenceId
                           || b.event.key == c.event.key)
                       ==> b == c)
  }

  ghost predicate NoRepeats<T(!new)>(s: seq<T>) {
    forall x :: multiset(s)[x] <= 1
  }

  lemma FilterThenMap<T(!new), U>(p: T -> bool, f: T -> U, s: seq<T>)
    requires |s| > 0
    ensures Map(f, Filter(p, s)) == (if p(s[0]) then [f(s[0])] else []) + Map(f, Filter(p, s[1..]))
  {
    var rest := Filter(p, s[1..]);
    if p(s[0]) {
      assert Filter(p, s) == [s[0]] + rest;
      MapCons(f, s[0], rest);
    } else {
      assert Filter(p, s) == [] + rest == rest;
    }
  }

  lemma MapCons<T, U>(f: T -> U, x: T, rest: seq<T>)
    ensures Map(f, [x] + rest) == [f(x)] + Map(f, rest)
  {}

  lemma {:induction false} FilterMap<A(!new), B(!new)>(f: A -> B, p: A -> bool, q: B -> bool, s: seq<A>)
    requires forall x :: x in s ==> p(x) == q(f(x))
    ensures Filter(q, Map(f, s)) == Map(f, Filter(p, s))
  {
    if |s| > 0 {
      assert s[0] in s && forall x :: x in s[1..] ==> x in s;
      FilterMap(f, p, q, s[1..]);
      FilterThenMap(p, f, s);
      FilterHead(q, Map(f, s));
      assert Map(f, s)[0] == f(s[0]) && Map(f, s)[1..] == Map(f, s[1..]);
    }
  }

  /** Elements that are pairwise different occur once. */
  lemma {:induction false} DistinctNoRepeats<T(!new)>(s: seq<T>)
    requires forall i, j :: 0 <= i < j < |s| ==> s[i] != s[j]
    ensures NoRepeats(s)
  {
    if |s| > 0 {
      DistinctNoRepeats(s[1..]);
      assert s == [s[0]] + s[1..];
      assert s[0] !in s[1..];
    }
  }

  lemma NoRepeatsDistinct<T(!new)>(s: seq<T>, i: nat, j: nat)
    requires NoRepeats(s) && i < j < |s|
    ensures s[i] != s[j]
  {
    assert s == s[..i] + [s[i]] + s[i + 1..j] + [s[j]] + s[j + 1..];
    assert multiset(s)[s[i]] <= 1;
  }

  lemma {:induction false} FilterCounts<T(!new)>(p: T -> bool, s: seq<T>)
    ensures multiset(Filter(p, s)) <= multiset(s)
  {
    if |s| > 0 {
      assert s == [s[0]] + s[1..];
      FilterCounts(p, s[1..]);
    }
  }

  lemma PairCoherent(s: Store, events: seq<Event>, d: Uuid)
    requires Holds(s, events)
    ensures Coherent(ForDomain(s, events, d), d) && NoRepeats(ForDomain(s, events, d))
  {
    PairsCarry(s, events);
    DistinctNoRepeats(Pair(s, events));
    FilterCounts(InDomain(d), Pair(s, events));
    PairsToldApart(s, events);
  }

  lemma PairsToldApart(s: Store, events: seq<Event>)
    requires Holds(s, events)
    ensures forall b, c :: b in Pair(s, events) && c in Pair(s, events)
                           && (b.provenance.provenanceId == c.provenance.provenanceId
                               || b.evidence.evidenceId == c.evidence.evidenceId
                               || b.event.key == c.event.key)
                           ==> b == c
  {
    var all := Pair(s, events);
    forall b, c | b in all && c in all
                  && (b.provenance.provenanceId == c.provenance.provenanceId
                      || b.evidence.evidenceId == c.evidence.evidenceId
                      || b.event.key == c.event.key)
      ensures b == c
    {
      var i :| 0 <= i < |all| && all[i] == b;
      var j :| 0 <= j < |all| && all[j] == c;
      assert i == j;
    }
  }

  lemma PairsCarry(s: Store, events: seq<Event>)
    requires Holds(s, events)
    ensures forall c :: c in Pair(s, events) ==> RowsCarry(c.provenance, c.evidence, c.event)
    ensures forall i, j :: 0 <= i < j < |Pair(s, events)| ==> Pair(s, events)[i] != Pair(s, events)[j]
  {
    forall i | 0 <= i < |events| ensures RowsCarry(s.provenance[i], s.evidence[i], events[i]) {}
  }

  ghost predicate Aligned(s: Store, events: seq<Event>) {
    && |s.provenance| == |s.evidence| == |events|
    && (forall i :: 0 <= i < |events| ==>
          s.evidence[i].provenanceId == s.provenance[i].provenanceId && s.evidence[i].domainId == DomainOf(events[i]))
    && (forall i, j :: 0 <= i < j < |s.provenance| ==> s.provenance[i].provenanceId != s.provenance[j].provenanceId)
  }

  lemma HoldsIsAligned(s: Store, events: seq<Event>)
    requires Holds(s, events)
    ensures Aligned(s, events)
  {
    assert forall i :: 0 <= i < |events| ==> RowsCarry(s.provenance[i], s.evidence[i], events[i]);
  }

  lemma JoinFirst(s: Store, events: seq<Event>, d: Uuid, k: nat)
    requires Aligned(s, events) && k < |events|
    ensures var p := s.provenance[k];
            JoinDomain(s.provenance[k..], s.evidence, d)
            == (if DomainOf(events[k]) == d then [p] else []) + JoinDomain(s.provenance[k + 1..], s.evidence, d)
  {
    var p := s.provenance[k];
    assert s.provenance[k..][1..] == s.provenance[k + 1..];
    var q := (e: EvidenceRow) => e.provenanceId == p.provenanceId && e.domainId == d;
    FilterOne(q, s.evidence, k);
    var hits := Filter(q, s.evidence);
    assert seq(|hits|, i => p) == if DomainOf(events[k]) == d then [p] else [];
  }

  lemma PairsFrom(s: Store, events: seq<Event>, d: Uuid, k: nat)
    requires |s.provenance| == |s.evidence| == |events| && k < |events|
    ensures Map(ProvenanceOf, Filter(InDomain(d), Pair(s, events)[k..]))
            == (if DomainOf(events[k]) == d then [s.provenance[k]] else [])
               + Map(ProvenanceOf, Filter(InDomain(d), Pair(s, events)[k + 1..]))
  {
    var tail := Pair(s, events)[k..];
    assert tail[0] == Carried(events[k], s.provenance[k], s.evidence[k]) && tail[1..] == Pair(s, events)[k + 1..];
    FilterThenMap(InDomain(d), ProvenanceOf, tail);
  }

  /** The join reads each provenance row of the domain once. */
  lemma {:induction false} JoinIsPairs(s: Store, events: seq<Event>, d: Uuid, k: nat)
    requires Aligned(s, events) && k <= |events|
    ensures JoinDomain(s.provenance[k..], s.evidence, d) == Map(ProvenanceOf, Filter(InDomain(d), Pair(s, events)[k..]))
    decreases |events| - k
  {
    if k < |events| {
      JoinIsPairs(s, events, d, k + 1);
      JoinFirst(s, events, d, k);
      PairsFrom(s, events, d, k);
    }
  }

  // ---- What is captured, in terms of the events ------------------------------------------------------

  function EventEvidenceKey(e: Event): Key { [[e.observedAt], e.signalClass, e.sourceUrl] }

  function EventProvenanceKey(e: Event): Key { [[e.observedAt], Anchor(e.key)] }

  function EventStableProvenance(e: Event): StableProvenance {
    StableProvenance(e.source, Anchor(e.key), e.observedAt, e.contributor)
  }

  /** The stable evidence columns of an event, its provenance found in the given order. */
  function EventStableEvidence(order: seq<Event>): Event -> StableEvidence {
    (e: Event) => StableEvidence(e.signalClass, e.source, e.methodText, e.sourceUrl, e.observedAt, e.observedValue,
                                 0, FirstIndex(order, e))
  }

  /** The domain row shows the spelling of the domain's first event. */
  function ExpectedDomains(events: seq<Event>): seq<StableDomain> {
    if |events| == 0 then [] else [StableDomain(NormalisedUrl(events[0].domainId), Ascii("under_review"))]
  }

  /** The stable snapshot as a function of one domain's events alone. */
  function ExpectedStable(events: seq<Event>): Stable {
    var order := SortBy(EventProvenanceKey, events);
    Stable(ExpectedDomains(events), Map(EventStableProvenance, order),
           Map(EventStableEvidence(order), SortBy(EventEvidenceKey, events)))
  }

  /** No two of the events agree on all three columns that order the evidence rows. */
  ghost predicate NoTies(events: seq<Event>) {
    forall i, j :: 0 <= i < j < |events| ==> EventEvidenceKey(events[i]) != EventEvidenceKey(events[j])
  }

  lemma EventsOfDomain(s: Store, events: seq<Event>, d: Uuid)
    requires |s.provenance| == |s.evidence| == |events|
    ensures Map(EventOf, ForDomain(s, events, d)) == OfDomain(events, d)
  {
    FilterMap(EventOf, InDomain(d), (e: Event) => DomainOf(e) == d, Pair(s, events));
    assert Map(EventOf, Pair(s, events)) == events;
  }

  lemma KeyPrefix(a: Key, b: Key, x: Text, y: Text)
    requires |a| == |b| && KeyLeq(a + [x], b + [y])
    ensures KeyLeq(a, b)
  {
    if |a| > 0 && a[0] == b[0] {
      assert (a + [x])[1..] == a[1..] + [x] && (b + [y])[1..] == b[1..] + [y];
      KeyPrefix(a[1..], b[1..], x, y);
    }
  }

  lemma KeysOfCarried(c: Carried)
    requires RowsCarry(c.provenance, c.evidence, c.event)
    ensures EvidenceKey(c.evidence) == EventEvidenceKey(c.event) + [[c.evidence.evidenceId]]
    ensures ProvenanceKey(c.provenance) == EventProvenanceKey(c.event) + [[c.provenance.provenanceId]]
  {}

  /** Both ordered reads are one and the same list of pairs, sorted two ways. */
  lemma ReadsArePairs(s: Store, events: seq<Event>, d: Uuid)
    requires Holds(s, events)
    ensures var cs := ForDomain(s, events, d);
            && Query(s, d).evidence == Map(EvidenceOf, SortBy(CarriedByEvidence, cs))
            && Query(s, d).provenance == Map(ProvenanceOf, SortBy(CarriedByProvenance, cs))
  {
    var cs := ForDomain(s, events, d);
    PairCoherent(s, events, d);
    HoldsIsAligned(s, events);
    JoinIsPairs(s, events, d, 0);
    assert Pair(s, events)[0..] == Pair(s, events) && s.provenance[0..] == s.provenance;
    FilterMap(EvidenceOf, InDomain(d), EvidenceIn(d), Pair(s, events));
    assert Map(EvidenceOf, Pair(s, events)) == s.evidence;
    SortsOfCoherent(cs, d);
  }

  lemma SortsOfCoherent(cs: seq<Carried>, d: Uuid)
    requires Coherent(cs, d)
    ensures Map(EvidenceOf, SortBy(CarriedByEvidence, cs)) == SortBy(EvidenceKey, Map(EvidenceOf, cs))
    ensures Map(ProvenanceOf, SortBy(CarriedByProvenance, cs)) == SortBy(ProvenanceKey, Map(ProvenanceOf, cs))
  {
    forall x, y | x in Map(EvidenceOf, cs) && y in Map(EvidenceOf, cs) && EvidenceKey(x) == EvidenceKey(y)
      ensures x == y
    {
      var b :| b in cs && b.evidence == x;
      var c :| c in cs && c.evidence == y;
      assert EvidenceKey(x)[3] == EvidenceKey(y)[3];
      assert x.evidenceId == y.evidenceId;
    }
    forall x, y | x in Map(ProvenanceOf, cs) && y in Map(ProvenanceOf, cs) && ProvenanceKey(x) == ProvenanceKey(y)
      ensures x == y
    {
      var b :| b in cs && b.provenance == x;
      var c :| c in cs && c.provenance == y;
      assert ProvenanceKey(x)[2] == ProvenanceKey(y)[2];
      assert x.provenanceId == y.provenanceId;
    }
    SortCommutes(CarriedByEvidence, EvidenceKey, EvidenceOf, cs);
    SortCommutes(CarriedByProvenance, ProvenanceKey, ProvenanceOf, cs);
  }

  lemma DomainFound(s: Store, events: seq<Event>, d: Uuid, i: nat)
    requires UniqueIds(s) && DomainsOf(s, events) && i < |s.domains| && s.domains[i].domainId == d
    ensures Query(s, d).domains == [s.domains[i]]
    ensures [StableOfDomain(s.domains[i])] == ExpectedDomains(OfDomain(events, d))
  {
    FilterOne(DomainIs(d), s.domains, i);
    assert SortBy(DomainKey, [s.domains[i]]) == [s.domains[i]];
    assert DomainFrom(s, i, events);
  }

  lemma DomainAbsent(s: Store, events: seq<Event>, d: Uuid)
    requires DomainsOf(s, events) && !HasDomain(s, d)
    ensures Query(s, d).domains == [] && ExpectedDomains(OfDomain(events, d)) == []
  {
    DomainIffEvent(s, events, d);
    FilterNone(DomainIs(d), s.domains);
  }

  lemma DomainsRead(s: Store, events: seq<Event>, d: Uuid)
    requires Holds(s, events)
    ensures var rows := Query(s, d).domains;
            && Map(StableOfDomain, rows) == ExpectedDomains(OfDomain(events, d))
            && (forall i :: 0 <= i < |rows| ==> rows[i].domainId == d)
  {
    if i :| 0 <= i < |s.domains| && s.domains[i].domainId == d {
      DomainFound(s, events, d, i);
    } else {
      DomainAbsent(s, events, d);
    }
  }

  /** A pair's foreign key resolves to the position of its own event. */
  lemma ReferenceIsOwnEvent(ps: seq<Carried>, d: Uuid, c: Carried)
    requires Coherent(ps, d) && c in ps
    ensures var k := FirstIndex(Map(EventOf, ps), c.event);
            k < |ps| && ps[k] == c && FirstIndex(ProvenanceIds(Map(ProvenanceOf, ps)), c.evidence.provenanceId) == k
  {
    var k := FirstIndex(Map(EventOf, ps), c.event);
    var m := FirstIndex(ProvenanceIds(Map(ProvenanceOf, ps)), c.evidence.provenanceId);
    var i :| 0 <= i < |ps| && ps[i] == c;
    assert RowsCarry(c.provenance, c.evidence, c.event);
    assert Map(EventOf, ps)[i] == c.event;
    assert ProvenanceIds(Map(ProvenanceOf, ps))[i] == c.provenance.provenanceId;
    assert ps[k] in ps && ps[m] in ps;
    assert ps[k].event == c.event && ps[m].provenance.provenanceId == c.provenance.provenanceId;
    assert ps[k] == c && ps[m] == c;
  }

  lemma SortedCoherent(key: Carried -> Key, cs: seq<Carried>, d: Uuid)
    requires Coherent(cs, d)
    ensures Coherent(SortBy(key, cs), d)
  {
    SortMembers(key, cs);
  }

  lemma ProvenanceOrder(cs: seq<Carried>, d: Uuid)
    requires Coherent(cs, d)
    ensures Map(EventOf, SortBy(CarriedByProvenance, cs)) == SortBy(EventProvenanceKey, Map(EventOf, cs))
  {
    var evs := Map(EventOf, cs);
    forall x, y | x in cs && y in cs && KeyLeq(CarriedByProvenance(x), CarriedByProvenance(y))
      ensures KeyLeq(EventProvenanceKey(x.event), EventProvenanceKey(y.event))
    {
      KeysOfCarried(x);
      KeysOfCarried(y);
      KeyPrefix(EventProvenanceKey(x.event), EventProvenanceKey(y.event), [x.provenance.provenanceId], [y.provenance.provenanceId]);
    }
    forall x, y | x in evs && y in evs && EventProvenanceKey(x) == EventProvenanceKey(y) ensures x == y {
      var b :| b in cs && b.event == x;
      var c :| c in cs && c.event == y;
      assert EventProvenanceKey(x)[1] == EventProvenanceKey(y)[1];
      AnchorInjective(x.key, y.key);
    }
    SortCommutes(CarriedByProvenance, EventProvenanceKey, EventOf, cs);
  }

  lemma EvidenceOrder(cs: seq<Carried>, d: Uuid)
    requires Coherent(cs, d) && NoTies(Map(EventOf, cs))
    ensures Map(EventOf, SortBy(CarriedByEvidence, cs)) == SortBy(EventEvidenceKey, Map(EventOf, cs))
  {
    forall x, y | x in cs && y in cs && KeyLeq(CarriedByEvidence(x), CarriedByEvidence(y))
      ensures KeyLeq(EventEvidenceKey(x.event), EventEvidenceKey(y.event))
    {
      KeysOfCarried(x);
      KeysOfCarried(y);
      KeyPrefix(EventEvidenceKey(x.event), EventEvidenceKey(y.event), [x.evidence.evidenceId], [y.evidence.evidenceId]);
    }
    SortCommutes(CarriedByEvidence, EventEvidenceKey, EventOf, cs);
  }

  lemma EvidenceRewritten(raw: Store, ps: seq<Carried>, es: seq<Carried>, d: Uuid)
    requires Coherent(ps, d) && forall c :: c in es ==> c in ps
    requires raw.provenance == Map(ProvenanceOf, ps) && raw.evidence == Map(EvidenceOf, es)
    requires |es| > 0 ==> |raw.domains| == 1 && raw.domains[0].domainId == d
    ensures forall i :: 0 <= i < |raw.evidence| ==> Resolves(raw, raw.evidence[i])
    ensures StablePart(raw).evidence == Map(EventStableEvidence(Map(EventOf, ps)), Map(EventOf, es))
  {
    var order := Map(EventOf, ps);
    forall i | 0 <= i < |es|
      ensures Resolves(raw, raw.evidence[i])
      ensures Rewrite(raw, raw.evidence[i]) == EventStableEvidence(order)(es[i].event)
    {
      var c := es[i];
      assert c in es && c in ps;
      ReferenceIsOwnEvent(ps, d, c);
      assert RowsCarry(c.provenance, c.evidence, c.event);
      assert DomainIds(raw.domains)[0] == d;
    }
  }

  /** The stable part of a domain's pairs, given one arrangement of the evidence rows. */
  ghost function StableOfPairs(cs: seq<Carried>): Stable {
    var order := SortBy(EventProvenanceKey, Map(EventOf, cs));
    Stable(ExpectedDomains(Map(EventOf, cs)), Map(EventStableProvenance, order),
           Map(EventStableEvidence(order), Map(EventOf, SortBy(CarriedByEvidence, cs))))
  }

  lemma ShapeOfRaw(raw: Store, cs: seq<Carried>, d: Uuid)
    requires Coherent(cs, d)
    requires raw.evidence == Map(EvidenceOf, SortBy(CarriedByEvidence, cs))
    requires raw.provenance == Map(ProvenanceOf, SortBy(CarriedByProvenance, cs))
    requires Map(StableOfDomain, raw.domains) == ExpectedDomains(Map(EventOf, cs))
    requires forall i :: 0 <= i < |raw.domains| ==> raw.domains[i].domainId == d
    ensures forall i :: 0 <= i < |raw.evidence| ==> Resolves(raw, raw.evidence[i])
    ensures StablePart(raw) == StableOfPairs(cs)
  {
    var ps, es := SortBy(CarriedByProvenance, cs), SortBy(CarriedByEvidence, cs);
    ProvenanceOrder(cs, d);
    SortedCoherent(CarriedByProvenance, cs, d);
    SortMembers(CarriedByProvenance, cs);
    SortMembers(CarriedByEvidence, cs);
    assert |raw.domains| == |ExpectedDomains(Map(EventOf, cs))|;
    EvidenceRewritten(raw, ps, es, d);
    StableProvenanceOfPairs(ps, d);
  }

  /** What any capture of a written store yields: it never fails, and only the arrangement of
      the evidence rows can depend on anything but the events. */
  lemma CaptureShape(s: Store, events: seq<Event>, d: Uuid)
    requires Holds(s, events)
    ensures Capture(s, d).Some? && Capture(s, d).value.stable == StableOfPairs(ForDomain(s, events, d))
  {
    PairCoherent(s, events, d);
    ReadsArePairs(s, events, d);
    DomainsRead(s, events, d);
    EventsOfDomain(s, events, d);
    ShapeOfRaw(Query(s, d), ForDomain(s, events, d), d);
  }

  lemma StableProvenanceOfPairs(ps: seq<Carried>, d: Uuid)
    requires Coherent(ps, d)
    ensures Map(StableOfProvenance, Map(ProvenanceOf, ps)) == Map(EventStableProvenance, Map(EventOf, ps))
  {
    forall i | 0 <= i < |ps|
      ensures StableOfProvenance(ps[i].provenance) == EventStableProvenance(ps[i].event)
    {
      assert ps[i] in ps;
      assert RowsCarry(ps[i].provenance, ps[i].evidence, ps[i].event);
    }
  }

  /** Without ties the stable snapshot is a function of the domain's events alone: ids, clocks
      and insertion order are gone. */
  lemma CaptureIsExpected(s: Store, events: seq<Event>, d: Uuid)
    requires Holds(s, events) && NoTies(OfDomain(events, d))
    ensures Capture(s, d).Some? && Capture(s, d).value.stable == ExpectedStable(OfDomain(events, d))
  {
    CaptureShape(s, events, d);
    PairCoherent(s, events, d);
    EventsOfDomain(s, events, d);
    EvidenceOrder(ForDomain(s, events, d), d);
  }
}
