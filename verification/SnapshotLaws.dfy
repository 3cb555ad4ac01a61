/** What a snapshot shows of the store: which rows, in which order, every column of each, and to
    which captured row each reference points. */
module SnapshotLaws {
  import opened Sorting
  import opened Wrappers
  import opened Uuids
  import opened EvidenceStore
  import opened Snapshot

  // ---- Both halves together -------------------------------------------------------------------------

  /** Rows put together again from the stable and the volatile half. */
  function RejoinedDomain(a: StableDomain, b: VolatileDomain): DomainRow {
    DomainRow(b.domainId, a.normalisedUrl, a.status, b.createdAt, b.updatedAt)
  }

  function RejoinedProvenance(a: StableProvenance, b: VolatileProvenance): ProvenanceRow {
    ProvenanceRow(b.provenanceId, a.source, a.methodText, a.observedAt, a.contributor, b.createdAt)
  }

  function RejoinedEvidence(a: StableEvidence, b: VolatileEvidence): EvidenceRow {
    EvidenceRow(b.evidenceId, b.domainId, a.signalClass, a.source, a.methodText, a.sourceUrl, a.observedAt, b.recordedAt,
                a.observedValue, b.provenanceId)
  }

  /** The split loses nothing: the i-th stable row and the i-th volatile row are together the i-th
      row read, ids and clocks included. */
  lemma HalvesRejoin(s: Store, d: Uuid)
    requires Capture(s, d).Some?
    ensures var raw, a, b := Query(s, d), Capture(s, d).value.stable, Capture(s, d).value.volatile;
            && |a.domains| == |b.domains| == |raw.domains|
            && |a.provenance| == |b.provenance| == |raw.provenance|
            && |a.evidence| == |b.evidence| == |raw.evidence|
            && (forall i :: 0 <= i < |raw.domains| ==> RejoinedDomain(a.domains[i], b.domains[i]) == raw.domains[i])
            && (forall i :: 0 <= i < |raw.provenance| ==> RejoinedProvenance(a.provenance[i], b.provenance[i]) == raw.provenance[i])
            && (forall i :: 0 <= i < |raw.evidence| ==> RejoinedEvidence(a.evidence[i], b.evidence[i]) == raw.evidence[i])
  {}

  /** The stable references stand for the volatile foreign keys: each points at the first captured
      row with that id. */
  lemma ReferencesPointHome(s: Store, d: Uuid, i: nat)
    requires Capture(s, d).Some? && i < |Capture(s, d).value.stable.evidence|
    ensures var a, b := Capture(s, d).value.stable.evidence[i], Capture(s, d).value.volatile;
            && i < |b.evidence| && a.domainRef < |b.domains| && a.provenanceRef < |b.provenance|
            && b.domains[a.domainRef].domainId == b.evidence[i].domainId
            && b.provenance[a.provenanceRef].provenanceId == b.evidence[i].provenanceId
            && (forall j :: 0 <= j < a.domainRef ==> b.domains[j].domainId != b.evidence[i].domainId)
            && (forall j :: 0 <= j < a.provenanceRef ==> b.provenance[j].provenanceId != b.evidence[i].provenanceId)
  {
    var raw := Query(s, d);
    assert Resolves(raw, raw.evidence[i]);
    assert forall j :: 0 <= j < |raw.domains| ==> DomainIds(raw.domains)[j] == raw.domains[j].domainId;
    assert forall j :: 0 <= j < |raw.provenance| ==> ProvenanceIds(raw.provenance)[j] == raw.provenance[j].provenanceId;
  }

  // ---- Which rows, in which order ------------------------------------------------------------------------

  /** Some evidence of the domain rests on the provenance row. */
  ghost predicate Supports(s: Store, p: ProvenanceRow, d: Uuid) {
    exists e :: e in s.evidence && e.provenanceId == p.provenanceId && e.domainId == d
  }

  lemma {:induction false} JoinMembers(provenance: seq<ProvenanceRow>, s: Store, d: Uuid, p: ProvenanceRow)
    ensures p in JoinDomain(provenance, s.evidence, d) <==> p in provenance && Supports(s, p, d)
  {
    if |provenance| > 0 {
      var first := provenance[0];
      JoinMembers(provenance[1..], s, d, p);
      var hits := Filter((e: EvidenceRow) => e.provenanceId == first.provenanceId && e.domainId == d, s.evidence);
      var copies := seq(|hits|, i => first);
      assert JoinDomain(provenance, s.evidence, d) == copies + JoinDomain(provenance[1..], s.evidence, d);
      if Supports(s, first, d) {
        var e :| e in s.evidence && e.provenanceId == first.provenanceId && e.domainId == d;
        assert e in hits && copies[0] == first;
      } else if |hits| > 0 {
        assert hits[0] in hits;
      }
      assert p in provenance <==> p == first || p in provenance[1..];
    }
  }

  /** The rows read are the domain's own, its evidence, and the provenance that its evidence rests
      on, in the order of the columns the queries name. */
  lemma ReadsOwnRows(s: Store, d: Uuid)
    ensures var raw := Query(s, d);
            && (forall r :: r in raw.domains <==> r in s.domains && r.domainId == d)
            && (forall r :: r in raw.evidence <==> r in s.evidence && r.domainId == d)
            && (forall r :: r in raw.provenance <==> r in s.provenance && Supports(s, r, d))
            && (forall i, j :: 0 <= i < j < |raw.evidence| ==>
                  KeyLeq([[raw.evidence[i].observedAt], raw.evidence[i].signalClass, raw.evidence[i].sourceUrl, [raw.evidence[i].evidenceId]],
                         [[raw.evidence[j].observedAt], raw.evidence[j].signalClass, raw.evidence[j].sourceUrl, [raw.evidence[j].evidenceId]]))
            && (forall i, j :: 0 <= i < j < |raw.provenance| ==>
                  KeyLeq([[raw.provenance[i].observedAt], raw.provenance[i].methodText, [raw.provenance[i].provenanceId]],
                         [[raw.provenance[j].observedAt], raw.provenance[j].methodText, [raw.provenance[j].provenanceId]]))
  {
    SortMembers(DomainKey, Filter(DomainIs(d), s.domains));
    SortMembers(EvidenceKey, Filter(EvidenceIn(d), s.evidence));
    SortMembers(ProvenanceKey, JoinDomain(s.provenance, s.evidence, d));
    SortFacts(EvidenceKey, Filter(EvidenceIn(d), s.evidence));
    SortFacts(ProvenanceKey, JoinDomain(s.provenance, s.evidence, d));
    forall r ensures r in Query(s, d).provenance <==> r in s.provenance && Supports(s, r, d) {
      JoinMembers(s.provenance, s, d, r);
    }
  }

  // ---- When it fails ---------------------------------------------------------------------------------------

  lemma FoundIff<T>(ids: seq<T>, x: T)
    ensures FirstIndex(ids, x) < |ids| <==> x in ids
  {
    if x in ids {
      var i :| 0 <= i < |ids| && ids[i] == x;
      assert FirstIndex(ids, x) <= i;
    }
  }

  ghost predicate Dangles(s: Store, e: EvidenceRow) {
    || (forall r :: r in s.domains ==> r.domainId != e.domainId)
    || (forall p :: p in s.provenance ==> p.provenanceId != e.provenanceId)
  }

  lemma ResolvesIff(s: Store, d: Uuid, e: EvidenceRow)
    requires e in s.evidence && e.domainId == d
    ensures Resolves(Query(s, d), e) <==> !Dangles(s, e)
  {
    var raw := Query(s, d);
    ReadsOwnRows(s, d);
    FoundIff(DomainIds(raw.domains), d);
    FoundIff(ProvenanceIds(raw.provenance), e.provenanceId);
    DomainHeldIff(raw.domains, d);
    ProvenanceHeldIff(raw.provenance, e.provenanceId);
    forall p | p in s.provenance && p.provenanceId == e.provenanceId ensures p in raw.provenance {
      assert Supports(s, p, d);
    }
  }

  lemma DomainHeldIff(rows: seq<DomainRow>, d: Uuid)
    ensures d in DomainIds(rows) <==> exists r :: r in rows && r.domainId == d
  {
    forall i | 0 <= i < |rows| ensures DomainIds(rows)[i] == rows[i].domainId && rows[i] in rows {}
  }

  lemma ProvenanceHeldIff(rows: seq<ProvenanceRow>, id: int)
    ensures id in ProvenanceIds(rows) <==> exists r :: r in rows && r.provenanceId == id
  {
    forall i | 0 <= i < |rows| ensures ProvenanceIds(rows)[i] == rows[i].provenanceId && rows[i] in rows {}
  }

  /** Of any store, a capture fails exactly when some evidence row of the domain refers to a domain
      row or a provenance row that is not in the store. */
  lemma CaptureFailsIff(s: Store, d: Uuid)
    ensures Capture(s, d).None? <==> exists e :: e in s.evidence && e.domainId == d && Dangles(s, e)
  {
    var raw := Query(s, d);
    ReadsOwnRows(s, d);
    if e :| e in s.evidence && e.domainId == d && Dangles(s, e) {
      var i :| 0 <= i < |raw.evidence| && raw.evidence[i] == e;
      ResolvesIff(s, d, e);
      assert !Resolves(raw, raw.evidence[i]);
    } else {
      forall i | 0 <= i < |raw.evidence| ensures Resolves(raw, raw.evidence[i]) {
        assert raw.evidence[i] in raw.evidence;
        ResolvesIff(s, d, raw.evidence[i]);
      }
    }
  }
}
