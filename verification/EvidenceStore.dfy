/** The canonical store's three tables and the evidence writer, the transactional and
    idempotent handler behind the consumer. A store value is the committed content of
    the tables in insertion order; server-generated ids and now() are inputs. */
module EvidenceStore {
  import opened Sorting
  import opened Wrappers
  import opened Uuids

  /** A tier-one signal event, as decoded from its envelope. The domain id is the producer's
      text; `typed` says whether the timestamp, the JSON value and the free texts are ones that
      the columns take. */
  datatype Event = Event(
    key: Text, eventType: Text, domainId: Text, signalClass: Text, sourceUrl: Text,
    observedAt: int, observedValue: Text, source: Text, methodText: Text, contributor: Option<Text>, typed: bool)

  datatype DomainRow = DomainRow(domainId: Uuid, normalisedUrl: Text, status: Text, createdAt: int, updatedAt: int)

  datatype ProvenanceRow = ProvenanceRow(
    provenanceId: int, source: Text, methodText: Text, observedAt: int, contributor: Option<Text>, createdAt: int)

  datatype EvidenceRow = EvidenceRow(
    evidenceId: int, domainId: Uuid, signalClass: Text, source: Text, methodText: Text, sourceUrl: Text,
    observedAt: int, recordedAt: int, observedValue: Text, provenanceId: int)

  datatype Store = Store(domains: seq<DomainRow>, provenance: seq<ProvenanceRow>, evidence: seq<EvidenceRow>)

  const EMPTY_STORE := Store([], [], [])

  /** What the server generates during one transaction. */
  datatype Fresh = Fresh(provenanceId: int, evidenceId: int, now: int)

  datatype WriteResult = WriteResult(provenanceId: int, evidenceId: int, domainId: Text, created: bool)

  datatype WriteOutcome = Written(store: Store, result: WriteResult) | Failed

  /** provenance.methodText carries the idempotency key behind a fixed prefix. */
  function Anchor(key: Text): Text {
    Ascii("evidence-writer-stub:") + key
  }

  function NormalisedUrl(domainId: Text): Text {
    domainId + Ascii(SUFFIX)
  }

  lemma AnchorInjective(a: Text, b: Text)
    requires Anchor(a) == Anchor(b)
    ensures a == b
  {
    var n := |Ascii("evidence-writer-stub:")|;
    assert Anchor(a)[n..] == a && Anchor(b)[n..] == b;
  }

  lemma NormalisedUrlInjective(a: Text, b: Text)
    requires NormalisedUrl(a) == NormalisedUrl(b)
    ensures a == b
  {
    assert NormalisedUrl(a)[..|a|] == a && NormalisedUrl(b)[..|b|] == b;
  }

  // ---- What the columns take ----------------------------------------------------------

  /** The domain an event is about: what the uuid column makes of its text. */
  function DomainOf(e: Event): Uuid {
    match ReadUuid(e.domainId) case None => Uuid([]) case Some(u) => u
  }

  /** The evidence_source enum. */
  predicate IsSource(t: Text) {
    t == Ascii("system") || t == Ascii("human") || t == Ascii("contributor") || t == Ascii("cti_partner")
  }

  /** Every value of the event casts to the type of its column. */
  predicate Castable(e: Event) {
    ReadUuid(e.domainId).Some? && IsSource(e.source) && e.typed
  }

  predicate IsSpace(c: int) { c == 0x20 || 0x09 <= c <= 0x0d }

  predicate IsSchemeChar(c: int) { 0x61 <= c <= 0x7a || 0x30 <= c <= 0x39 || c == 0x2b || c == 0x2e || c == 0x2d }

  predicate SchemeEndsAt(url: Text, n: nat) {
    0 < n <= |url| - 3 && url[n..n + 3] == Ascii("://") && forall k :: 0 <= k < n ==> IsSchemeChar(url[k])
  }

  /** A prefix of the form scheme://, the scheme starting with a letter. */
  predicate HasScheme(url: Text) {
    |url| > 0 && 0x61 <= url[0] <= 0x7a && exists n: nat :: n < |url| && SchemeEndsAt(url, n)
  }

  /** The CHECK on domain.normalised_url and its length limit. */
  predicate Normalised(url: Text) {
    && 0 < |url| <= 255
    && (forall k :: 0 <= k < |url| ==> !(0x41 <= url[k] <= 0x5a) && !IsSpace(url[k]) && url[k] != 0x3f && url[k] != 0x23)
    && !HasScheme(url)
    && !(|url| >= 4 && url[..4] == Ascii("www."))
  }

  const SUFFIX := ".smoke.trustlist.test"

  lemma AsciiChars(s: string, k: nat)
    requires k < |s|
    ensures |Ascii(s)| == |s| && Ascii(s)[k] == s[k] as int
  {}

  lemma SuffixChars()
    ensures |Ascii(SUFFIX)| == 21 && Ascii(SUFFIX)[0] == 0x2e
    ensures forall k :: 0 <= k < 21 ==> Ascii(SUFFIX)[k] == 0x2e || 0x61 <= Ascii(SUFFIX)[k] <= 0x7a
  {
    var s := SUFFIX;
    assert |s| == 21;
    assert forall k :: 0 <= k < 21 ==> s[k] == '.' || 'a' <= s[k] <= 'z';
    assert forall k :: 0 <= k < 21 ==> Ascii(s)[k] == s[k] as int;
  }

  lemma NoColonNoScheme(url: Text)
    requires forall k :: 0 <= k < |url| ==> url[k] != 0x3a
    ensures !HasScheme(url)
  {
    AsciiChars("://", 0);
    forall n: nat | n < |url| ensures !SchemeEndsAt(url, n) {
      if 0 < n <= |url| - 3 {
        assert url[n..n + 3][0] == url[n];
      }
    }
  }

  /** What a readable domain id leaves of the CHECK: its URL is short, and of digits, hyphens,
      braces, dots and letters. */
  lemma UrlChars(t: Text)
    requires ReadUuid(t).Some?
    ensures var url := NormalisedUrl(t);
            && 21 < |url| <= 71 && |url| == |t| + 21
            && (forall k :: 0 <= k < |t| ==> url[k] == t[k] && IsUuidChar(url[k]))
            && (forall k :: |t| <= k < |url| ==> url[k] == 0x2e || 0x61 <= url[k] <= 0x7a)
  {
    ReadableChars(t);
    SuffixChars();
    var url := NormalisedUrl(t);
    assert forall k :: |t| <= k < |url| ==> url[k] == Ascii(SUFFIX)[k - |t|];
  }

  lemma LowerCaseIsNormalised(t: Text)
    requires ReadUuid(t).Some? && forall k :: 0 <= k < |t| ==> !IsUpperHex(t[k])
    ensures Normalised(NormalisedUrl(t))
  {
    var url := NormalisedUrl(t);
    UrlChars(t);
    NoColonNoScheme(url);
    AsciiChars("www.", 0);
    assert url[..4][0] == url[0];
  }

  /** Of the domain ids that the uuid column reads, the CHECK refuses exactly those with an
      upper-case digit. */
  lemma NormalisedIffLowerCase(t: Text)
    requires ReadUuid(t).Some?
    ensures Normalised(NormalisedUrl(t)) <==> forall k :: 0 <= k < |t| ==> !IsUpperHex(t[k])
  {
    UrlChars(t);
    if k :| 0 <= k < |t| && IsUpperHex(t[k]) {
      assert NormalisedUrl(t)[k] == t[k];
    } else {
      LowerCaseIsNormalised(t);
    }
  }

  /** An event like the synthetic fixture's. */
  function SampleEvent(key: Text, domainId: Text): Event {
    Event(key, [2], domainId, [3], [], 0, [4], Ascii("system"), [5], None, true)
  }

  // ---- Queries ---------------------------------------------------------------------

  /** evidence JOIN provenance on the id, restricted to one provenance.methodText. */
  function JoinOnMethod(evidence: seq<EvidenceRow>, provenance: seq<ProvenanceRow>, methodText: Text): seq<EvidenceRow> {
    if |evidence| == 0 then []
    else
      var e := evidence[0];
      var hits := Filter((p: ProvenanceRow) => p.provenanceId == e.provenanceId && p.methodText == methodText, provenance);
      seq(|hits|, i => e) + JoinOnMethod(evidence[1..], provenance, methodText)
  }

  datatype Lookup = Absent | Present(result: WriteResult) | Ambiguous

  /** The database-level duplicate lookup; more than one joined row is an error. */
  function FindExisting(s: Store, key: Text): Lookup {
    var rows := JoinOnMethod(s.evidence, s.provenance, Anchor(key));
    if |rows| == 0 then Absent
    else if |rows| == 1 then Present(WriteResult(rows[0].provenanceId, rows[0].evidenceId, UuidText(rows[0].domainId), false))
    else Ambiguous
  }

  predicate HasDomain(s: Store, domainId: Uuid) {
    exists i :: 0 <= i < |s.domains| && s.domains[i].domainId == domainId
  }

  predicate HasUrl(s: Store, url: Text) {
    exists i :: 0 <= i < |s.domains| && s.domains[i].normalisedUrl == url
  }

  predicate HasProvenance(s: Store, id: int) {
    exists i :: 0 <= i < |s.provenance| && s.provenance[i].provenanceId == id
  }

  predicate HasEvidence(s: Store, id: int) {
    exists i :: 0 <= i < |s.evidence| && s.evidence[i].evidenceId == id
  }

  /** The event's domain is in the table, or its row can be inserted. */
  predicate TakesDomain(s: Store, e: Event) {
    HasDomain(s, DomainOf(e)) || (Normalised(NormalisedUrl(e.domainId)) && !HasUrl(s, NormalisedUrl(e.domainId)))
  }

  // ---- The write transaction --------------------------------------------------------

  function NewDomain(e: Event, f: Fresh): DomainRow {
    DomainRow(DomainOf(e), NormalisedUrl(e.domainId), Ascii("under_review"), f.now, f.now)
  }

  function NewProvenance(e: Event, f: Fresh): ProvenanceRow {
    ProvenanceRow(f.provenanceId, e.source, Anchor(e.key), e.observedAt, e.contributor, f.now)
  }

  function NewEvidence(e: Event, f: Fresh): EvidenceRow {
    EvidenceRow(f.evidenceId, DomainOf(e), e.signalClass, e.source, e.methodText, e.sourceUrl,
                e.observedAt, f.now, e.observedValue, f.provenanceId)
  }

  /** The three inserts of one transaction. */
  function Inserted(s: Store, e: Event, f: Fresh): Store {
    Store(if HasDomain(s, DomainOf(e)) then s.domains else s.domains + [NewDomain(e, f)],
          s.provenance + [NewProvenance(e, f)],
          s.evidence + [NewEvidence(e, f)])
  }

  /** The whole effect of handling one event, when no outside fault interferes. */
  function Write(s: Store, e: Event, f: Fresh): WriteOutcome {
    match FindExisting(s, e.key)
    case Ambiguous => Failed
    case Present(r) => Written(s, r)
    case Absent =>
      if !Castable(e) then Failed
      else if !TakesDomain(s, e) then Failed
      else if HasProvenance(s, f.provenanceId) || HasEvidence(s, f.evidenceId) then Failed
      else
        Written(Inserted(s, e, f), WriteResult(f.provenanceId, f.evidenceId, e.domainId, true))
  }

  // ---- What the writer maintains -----------------------------------------------------

  ghost predicate HasKey(events: seq<Event>, key: Text) {
    exists i :: 0 <= i < |events| && events[i].key == key
  }

  ghost predicate DistinctKeys(events: seq<Event>) {
    forall i, j :: 0 <= i < j < |events| ==> events[i].key != events[j].key
  }

  /** Row pair i carries event e: contents, anchor, and the evidence -> provenance link. */
  ghost predicate RowsCarry(p: ProvenanceRow, r: EvidenceRow, e: Event) {
    && p == NewProvenance(e, Fresh(p.provenanceId, r.evidenceId, p.createdAt))
    && r == NewEvidence(e, Fresh(p.provenanceId, r.evidenceId, r.recordedAt))
  }

  ghost predicate UniqueIds(s: Store) {
    && (forall i, j :: 0 <= i < j < |s.provenance| ==> s.provenance[i].provenanceId != s.provenance[j].provenanceId)
    && (forall i, j :: 0 <= i < j < |s.evidence| ==> s.evidence[i].evidenceId != s.evidence[j].evidenceId)
    && (forall i, j :: 0 <= i < j < |s.domains| ==> s.domains[i].domainId != s.domains[j].domainId)
  }

  /** The events about one domain, in order. */
  function OfDomain(events: seq<Event>, d: Uuid): seq<Event> {
    Filter((e: Event) => DomainOf(e) == d, events)
  }

  /** Domain row i is as the writer makes it, for the first event of its domain. */
  ghost predicate DomainFrom(s: Store, i: int, events: seq<Event>)
    requires 0 <= i < |s.domains|
  {
    var d := s.domains[i];
    var about := OfDomain(events, d.domainId);
    |about| > 0 && d.normalisedUrl == NormalisedUrl(about[0].domainId) && d.status == Ascii("under_review")
  }

  ghost predicate DomainsOf(s: Store, events: seq<Event>) {
    && (forall i {:trigger HasDomain(s, DomainOf(events[i]))} :: 0 <= i < |events| ==> HasDomain(s, DomainOf(events[i])))
    && (forall i {:trigger DomainFrom(s, i, events)} :: 0 <= i < |s.domains| ==> DomainFrom(s, i, events))
  }

  /** The database takes the event after these: its values cast, and its domain is known or
      spelled in lower case. */
  predicate Storable(events: seq<Event>, e: Event) {
    Castable(e) && (|OfDomain(events, DomainOf(e))| > 0 || Normalised(NormalisedUrl(e.domainId)))
  }

  predicate StorableAt(events: seq<Event>, i: int)
    requires 0 <= i < |events|
  {
    Storable(events[..i], events[i])
  }

  /** Each event is storable after those before it. */
  ghost predicate AllStorable(events: seq<Event>) {
    forall i {:trigger StorableAt(events, i)} :: 0 <= i < |events| ==> StorableAt(events, i)
  }

  /** The store holds exactly one provenance+evidence pair for each of these events, in
      this order, over exactly their domains, and nothing else. */
  ghost predicate Holds(s: Store, events: seq<Event>) {
    && DistinctKeys(events) && AllStorable(events)
    && |s.provenance| == |s.evidence| == |events|
    && (forall i {:trigger RowsCarry(s.provenance[i], s.evidence[i], events[i])} ::
          0 <= i < |events| ==> RowsCarry(s.provenance[i], s.evidence[i], events[i]))
    && UniqueIds(s)
    && DomainsOf(s, events)
  }

  lemma OfDomainAppend(events: seq<Event>, e: Event, d: Uuid)
    ensures OfDomain(events + [e], d) == OfDomain(events, d) + (if DomainOf(e) == d then [e] else [])
  {
    FilterAppend((x: Event) => DomainOf(x) == d, events, e);
  }

  lemma AllStorableAppend(events: seq<Event>, e: Event)
    ensures AllStorable(events + [e]) <==> AllStorable(events) && Storable(events, e)
  {
    var all := events + [e];
    assert all[..|events|] == events && all[|events|] == e;
    assert StorableAt(all, |events|) == Storable(events, e);
    forall i | 0 <= i < |events| ensures StorableAt(all, i) == StorableAt(events, i) {
      assert all[..i] == events[..i] && all[i] == events[i];
    }
  }

  lemma NothingHeld(s: Store)
    requires Holds(s, [])
    ensures s == EMPTY_STORE
  {
    if |s.domains| > 0 {
      var fromNothing := DomainFrom(s, 0, []);
      assert false;
    }
  }

  /** Under Holds the table has a domain exactly when some event is about it. */
  lemma DomainIffEvent(s: Store, events: seq<Event>, d: Uuid)
    requires DomainsOf(s, events)
    ensures HasDomain(s, d) <==> |OfDomain(events, d)| > 0
  {
    var about := OfDomain(events, d);
    if HasDomain(s, d) {
      var i :| 0 <= i < |s.domains| && s.domains[i].domainId == d;
      assert DomainFrom(s, i, events);
    }
    if |about| > 0 {
      assert about[0] in about;
      var j :| 0 <= j < |events| && events[j] == about[0];
      assert HasDomain(s, DomainOf(events[j]));
    }
  }

  lemma {:induction false} FilterNone<T(!new)>(p: T -> bool, s: seq<T>)
    requires forall x :: x in s ==> !p(x)
    ensures Filter(p, s) == []
  {
    if |s| > 0 {
      assert s[0] in s;
      FilterNone(p, s[1..]);
    }
  }

  lemma {:induction false} FilterOne<T(!new)>(p: T -> bool, s: seq<T>, i: nat)
    requires i < |s|
    requires forall j :: 0 <= j < |s| && j != i ==> !p(s[j])
    ensures Filter(p, s) == if p(s[i]) then [s[i]] else []
  {
    if i == 0 {
      FilterNone(p, s[1..]);
    } else {
      assert !p(s[0]);
      FilterOne(p, s[1..], i - 1);
    }
  }

  /** Under unique provenance ids an evidence row joins only its own provenance row. */
  lemma JoinOne(s: Store, events: seq<Event>, k: nat, key: Text)
    requires Holds(s, events) && k < |events|
    ensures JoinOnMethod(s.evidence[k..], s.provenance, Anchor(key))
            == (if events[k].key == key then [s.evidence[k]] else []) + JoinOnMethod(s.evidence[k + 1..], s.provenance, Anchor(key))
  {
    var e := s.evidence[k];
    assert s.evidence[k..][1..] == s.evidence[k + 1..];
    assert RowsCarry(s.provenance[k], e, events[k]);
    var q := (p: ProvenanceRow) => p.provenanceId == e.provenanceId && p.methodText == Anchor(key);
    FilterOne(q, s.provenance, k);
    if Anchor(events[k].key) == Anchor(key) { AnchorInjective(events[k].key, key); }
    var hits := Filter(q, s.provenance);
    assert seq(|hits|, i => e) == if events[k].key == key then [e] else [];
  }

  lemma NoRepeatedKey(events: seq<Event>, k: nat, key: Text)
    requires DistinctKeys(events) && k < |events| && events[k].key == key
    ensures forall i :: 0 <= i < |events| && events[i].key == key ==> i == k
  {}

  lemma {:induction false} JoinIsAligned(s: Store, events: seq<Event>, k: nat, key: Text)
    requires Holds(s, events) && k <= |events|
    ensures var rows := JoinOnMethod(s.evidence[k..], s.provenance, Anchor(key));
            && (forall i :: k <= i < |events| && events[i].key == key ==> rows == [s.evidence[i]])
            && ((forall i :: k <= i < |events| ==> events[i].key != key) ==> rows == [])
    decreases |events| - k
  {
    if k < |events| {
      JoinIsAligned(s, events, k + 1, key);
      JoinOne(s, events, k, key);
      if events[k].key == key { NoRepeatedKey(events, k, key); }
    }
  }

  /** The lookup finds a key exactly when an event with it was written, returns that
      event's own rows, and never sees two. */
  lemma LookupIsExact(s: Store, events: seq<Event>, key: Text)
    requires Holds(s, events)
    ensures !HasKey(events, key) ==> FindExisting(s, key) == Absent
    ensures forall i :: 0 <= i < |events| && events[i].key == key ==>
              FindExisting(s, key) ==
              Present(WriteResult(s.provenance[i].provenanceId, s.evidence[i].evidenceId, UuidText(DomainOf(events[i])), false))
  {
    JoinIsAligned(s, events, 0, key);
    assert s.evidence[0..] == s.evidence;
    forall i | 0 <= i < |events| && events[i].key == key
      ensures FindExisting(s, key) ==
              Present(WriteResult(s.provenance[i].provenanceId, s.evidence[i].evidenceId, UuidText(DomainOf(events[i])), false))
    {
      assert RowsCarry(s.provenance[i], s.evidence[i], events[i]);
    }
  }

  /** No other domain holds the URL of a domain that the table lacks. */
  lemma NoUrlConflict(s: Store, events: seq<Event>, e: Event)
    requires DomainsOf(s, events) && HasUrl(s, NormalisedUrl(e.domainId))
    ensures HasDomain(s, DomainOf(e))
  {
    var i :| 0 <= i < |s.domains| && s.domains[i].normalisedUrl == NormalisedUrl(e.domainId);
    assert DomainFrom(s, i, events);
    var about := OfDomain(events, s.domains[i].domainId);
    assert about[0] in about;
    NormalisedUrlInjective(about[0].domainId, e.domainId);
  }

  /** One write: a known key changes nothing and reports the existing rows; a new key fails
      exactly if the database cannot take the event or a generated id collides, and otherwise
      adds exactly its pair. */
  lemma WriteKeepsHolds(s: Store, events: seq<Event>, e: Event, f: Fresh)
    requires Holds(s, events)
    ensures HasKey(events, e.key) ==>
              Write(s, e, f).Written? && Write(s, e, f).store == s && !Write(s, e, f).result.created
    ensures !HasKey(events, e.key) ==>
              if !Storable(events, e) || HasProvenance(s, f.provenanceId) || HasEvidence(s, f.evidenceId) then Write(s, e, f) == Failed
              else Write(s, e, f).Written? && Write(s, e, f).result.created
                   && Write(s, e, f).store == Inserted(s, e, f)
                   && Holds(Write(s, e, f).store, events + [e])
  {
    LookupIsExact(s, events, e.key);
    if !HasKey(events, e.key) {
      DomainIffEvent(s, events, DomainOf(e));
      if HasUrl(s, NormalisedUrl(e.domainId)) { NoUrlConflict(s, events, e); }
      if Storable(events, e) && !HasProvenance(s, f.provenanceId) && !HasEvidence(s, f.evidenceId) {
        InsertedHolds(s, events, e, f);
      }
    }
  }

  predicate UnusedIds(s: Store, f: Fresh) {
    !HasProvenance(s, f.provenanceId) && !HasEvidence(s, f.evidenceId)
  }

  lemma InsertedHolds(s: Store, events: seq<Event>, e: Event, f: Fresh)
    requires Holds(s, events) && !HasKey(events, e.key) && Storable(events, e) && UnusedIds(s, f)
    ensures Holds(Inserted(s, e, f), events + [e])
  {
    var s' := Inserted(s, e, f);
    assert RowsCarry(s'.provenance[|events|], s'.evidence[|events|], e);
    assert DistinctKeys(events + [e]);
    AllStorableAppend(events, e);
    InsertedUniqueIds(s, e, f);
    InsertedDomains(s, events, e, f);
  }

  lemma InsertedUniqueIds(s: Store, e: Event, f: Fresh)
    requires UniqueIds(s) && UnusedIds(s, f)
    ensures UniqueIds(Inserted(s, e, f))
  {}

  lemma InsertedDomains(s: Store, events: seq<Event>, e: Event, f: Fresh)
    requires DomainsOf(s, events)
    ensures DomainsOf(Inserted(s, e, f), events + [e])
  {
    var s', all := Inserted(s, e, f), events + [e];
    DomainIffEvent(s, events, DomainOf(e));
    forall i | 0 <= i < |all| ensures HasDomain(s', DomainOf(all[i])) {
      if HasDomain(s, DomainOf(all[i])) {
        var d :| 0 <= d < |s.domains| && s.domains[d].domainId == DomainOf(all[i]);
        assert s'.domains[d].domainId == DomainOf(all[i]);
      } else {
        assert s'.domains[|s.domains|].domainId == DomainOf(e);
      }
    }
    forall i | 0 <= i < |s'.domains| ensures DomainFrom(s', i, all) {
      OfDomainAppend(events, e, s'.domains[i].domainId);
      if i < |s.domains| { assert DomainFrom(s, i, events); }
    }
  }

  ghost predicate Referenced(s: Store, provenanceId: int) {
    exists j :: 0 <= j < |s.evidence| && s.evidence[j].provenanceId == provenanceId
  }

  /** Every provenance row has an evidence row, and every evidence row its provenance row
      and its domain. */
  ghost predicate Referential(s: Store) {
    && (forall i {:trigger Referenced(s, s.provenance[i].provenanceId)} ::
          0 <= i < |s.provenance| ==> Referenced(s, s.provenance[i].provenanceId))
    && (forall j {:trigger HasProvenance(s, s.evidence[j].provenanceId)} :: 0 <= j < |s.evidence| ==>
          HasProvenance(s, s.evidence[j].provenanceId) && HasDomain(s, s.evidence[j].domainId))
  }

  lemma HoldsIsReferential(s: Store, events: seq<Event>)
    requires Holds(s, events)
    ensures Referential(s)
  {
    forall i | 0 <= i < |events|
      ensures s.evidence[i].provenanceId == s.provenance[i].provenanceId
      ensures HasDomain(s, s.evidence[i].domainId)
      ensures HasProvenance(s, s.evidence[i].provenanceId) && Referenced(s, s.provenance[i].provenanceId)
    {
      assert RowsCarry(s.provenance[i], s.evidence[i], events[i]);
      assert HasDomain(s, DomainOf(events[i]));
    }
  }

  // ---- The writer as a handler --------------------------------------------------------

  /** An outside fault during one transaction: the connection is lost before the n-th
      statement, or the commit succeeds but its acknowledgement is lost. */
  datatype WriterFault = NoFault | LostBefore(statement: nat) | AckLost

  datatype Attempted = Attempted(store: Store, result: Option<WriteResult>)

  /** One attempt at the transaction under a fault. A lost connection before the commit
      leaves the store as it was; a duplicate is answered by the first statement alone. */
  function Attempt(s: Store, e: Event, f: Fresh, fault: WriterFault): Attempted {
    var lost := fault.LostBefore?
                && (fault.statement == 0 || (fault.statement <= 4 && FindExisting(s, e.key).Absent?));
    match Write(s, e, f)
    case Failed => Attempted(s, None)
    case Written(s', r) =>
      if lost then Attempted(s, None)
      else if fault.AckLost? then Attempted(s', None)
      else Attempted(s', Some(r))
  }

  // ---- What a write reports --------------------------------------------------------------

  /** Row pair i carries the key and has these two ids. */
  predicate PairHas(s: Store, i: nat, key: Text, provenanceId: int, evidenceId: int) {
    && i < |s.provenance| && i < |s.evidence|
    && s.provenance[i].methodText == Anchor(key)
    && s.provenance[i].provenanceId == provenanceId && s.evidence[i].provenanceId == provenanceId
    && s.evidence[i].evidenceId == evidenceId
  }

  /** Every clock column of a new row is the transaction's instant. */
  predicate StampedNew(s: Store, t: Store, now: int) {
    && (forall i :: |s.domains| <= i < |t.domains| ==> t.domains[i].createdAt == now && t.domains[i].updatedAt == now)
    && (forall i :: |s.provenance| <= i < |t.provenance| ==> t.provenance[i].createdAt == now)
    && (forall i :: |s.evidence| <= i < |t.evidence| ==> t.evidence[i].recordedAt == now)
  }

  lemma HeldDomainIsUuid(events: seq<Event>, i: nat)
    requires AllStorable(events) && i < |events|
    ensures ReadUuid(events[i].domainId).Some? && IsUuid(DomainOf(events[i]))
  {
    var here := StorableAt(events, i);
    ReadIsUuid(events[i].domainId);
  }

  lemma ReportsHeldPair(s: Store, events: seq<Event>, key: Text) returns (i: nat)
    requires Holds(s, events) && HasKey(events, key)
    ensures i < |events| && events[i].key == key && i < |s.evidence| && FindExisting(s, key).Present?
    ensures var r := FindExisting(s, key).result;
            && PairHas(s, i, key, r.provenanceId, r.evidenceId) && !r.created
            && ReadUuid(r.domainId) == Some(s.evidence[i].domainId) && OwnText(r.domainId)
  {
    i :| 0 <= i < |events| && events[i].key == key;
    LookupIsExact(s, events, key);
    assert RowsCarry(s.provenance[i], s.evidence[i], events[i]);
    HeldDomainIsUuid(events, i);
    ReadUuidText(DomainOf(events[i]));
  }

  lemma KnownReports(s: Store, events: seq<Event>, e: Event, f: Fresh, fault: WriterFault) returns (i: nat)
    requires Holds(s, events) && HasKey(events, e.key) && Attempt(s, e, f, fault).result.Some?
    ensures var t, r := Attempt(s, e, f, fault).store, Attempt(s, e, f, fault).result.value;
            && t == s && FindExisting(s, e.key) == Present(r) && !r.created
            && PairHas(s, i, e.key, r.provenanceId, r.evidenceId) && ReadUuid(r.domainId) == Some(s.evidence[i].domainId)
            && r.domainId == UuidText(s.evidence[i].domainId)
  {
    WriteKeepsHolds(s, events, e, f);
    i := ReportsHeldPair(s, events, e.key);
  }

  lemma NewReports(s: Store, events: seq<Event>, e: Event, f: Fresh, fault: WriterFault) returns (i: nat)
    requires Holds(s, events) && !HasKey(events, e.key) && Attempt(s, e, f, fault).result.Some?
    ensures var t, r := Attempt(s, e, f, fault).store, Attempt(s, e, f, fault).result.value;
            && i == |s.evidence| && Holds(t, events + [e]) && StampedNew(s, t, f.now) && r.created
            && r.provenanceId == f.provenanceId && r.evidenceId == f.evidenceId
            && PairHas(t, i, e.key, r.provenanceId, r.evidenceId) && ReadUuid(r.domainId) == Some(t.evidence[i].domainId)
            && FindExisting(t, e.key) == Present(r.(created := false, domainId := UuidText(t.evidence[i].domainId)))
  {
    WriteKeepsHolds(s, events, e, f);
    i := |s.evidence|;
    var t := Attempt(s, e, f, fault).store;
    assert t == Inserted(s, e, f) && (events + [e])[i] == e;
    LookupIsExact(t, events + [e], e.key);
    HeldDomainIsUuid(events + [e], i);
  }

  /** What a successful write reports is in the store it leaves: one row pair has the event's key
      and exactly the two ids, and the domain text reads as that pair's domain. `created` says
      whether rows were added, their clock columns being this transaction's; and a redelivery
      reports the same pair. */
  lemma WriteReportsItsRows(s: Store, events: seq<Event>, e: Event, f: Fresh, fault: WriterFault) returns (i: nat)
    requires Holds(s, events) && Attempt(s, e, f, fault).result.Some?
    ensures var t, r := Attempt(s, e, f, fault).store, Attempt(s, e, f, fault).result.value;
            && PairHas(t, i, e.key, r.provenanceId, r.evidenceId) && ReadUuid(r.domainId) == Some(t.evidence[i].domainId)
            && r.created == !HasKey(events, e.key)
            && (if r.created then r.provenanceId == f.provenanceId && r.evidenceId == f.evidenceId && i == |s.evidence| else t == s)
            && StampedNew(s, t, f.now)
            && FindExisting(t, e.key) == Present(r.(created := false, domainId := UuidText(t.evidence[i].domainId)))
  {
    if HasKey(events, e.key) {
      i := KnownReports(s, events, e, f, fault);
    } else {
      i := NewReports(s, events, e, f, fault);
    }
  }

  /** The literal texts of the anchor and the URL, and the four names of the enum. */
  lemma AnchorsAndNames()
    ensures Anchor(Ascii("k")) == Ascii("evidence-writer-stub:k") && NormalisedUrl(Ascii("d")) == Ascii("d.smoke.trustlist.test")
    ensures forall t: string :: IsSource(Ascii(t)) <==> t in {"system", "human", "contributor", "cti_partner"}
  {
    assert "evidence-writer-stub:" + "k" == "evidence-writer-stub:k" && "d" + SUFFIX == "d.smoke.trustlist.test";
    AsciiAppend("evidence-writer-stub:", "k");
    AsciiAppend("d", SUFFIX);
    forall t: string ensures IsSource(Ascii(t)) <==> t in {"system", "human", "contributor", "cti_partner"} {
      AsciiInjective(t, "system");
      AsciiInjective(t, "human");
      AsciiInjective(t, "contributor");
      AsciiInjective(t, "cti_partner");
    }
  }

  lemma AsciiAppend(a: string, b: string)
    ensures Ascii(a + b) == Ascii(a) + Ascii(b)
  {}

  lemma AsciiInjective(a: string, b: string)
    ensures Ascii(a) == Ascii(b) <==> a == b
  {
    if Ascii(a) == Ascii(b) {
      assert |a| == |b|;
      forall i | 0 <= i < |a| ensures a[i] == b[i] {
        AsciiChars(a, i);
        AsciiChars(b, i);
      }
    }
  }

  /** The live database behind one engine; a transaction works on its tables in place. */
  class CanonicalStore {
    var domains: seq<DomainRow>
    var provenance: seq<ProvenanceRow>
    var evidence: seq<EvidenceRow>

    ghost function View(): Store
      reads this
    {
      Store(domains, provenance, evidence)
    }

    constructor ()
      ensures View() == EMPTY_STORE
    {
      domains, provenance, evidence := [], [], [];
    }

    /** False is the raised error: an unreadable id, a refused URL, or the URL of another row. */
    method EnsureDomain(e: Event, f: Fresh) returns (ok: bool)
      modifies this`domains
      ensures ok <==> ReadUuid(e.domainId).Some? && old(TakesDomain(View(), e))
      ensures domains == if old(HasDomain(View(), DomainOf(e))) || !ok then old(domains) else old(domains) + [NewDomain(e, f)]
    {
      if ReadUuid(e.domainId).None? { return false; }
      if HasDomain(Store(domains, provenance, evidence), DomainOf(e)) { return true; }
      var url := NormalisedUrl(e.domainId);
      if !Normalised(url) || HasUrl(Store(domains, provenance, evidence), url) { return false; }
      domains := domains + [NewDomain(e, f)];
      return true;
    }

    /** Persist one event in one transaction; None is a raised exception. */
    method WriteEvidence(e: Event, f: Fresh, fault: WriterFault) returns (r: Option<WriteResult>)
      modifies this
      ensures Attempted(View(), r) == Attempt(old(View()), e, f, fault)
    {
      var d0, p0, e0 := domains, provenance, evidence;   // BEGIN
      r := Transaction(e, f, fault);
      if r.None? {
        domains, provenance, evidence := d0, p0, e0;     // ROLLBACK
      } else if fault.AckLost? {
        r := None;                                       // committed, but the caller sees an exception
      }
    }

    method Transaction(e: Event, f: Fresh, fault: WriterFault) returns (r: Option<WriteResult>)
      modifies this
      ensures r.Some? ==> Write(old(View()), e, f) == Written(View(), r.value)
      ensures r.Some? <==> Attempt(old(View()), e, f, fault).result.Some? || (fault.AckLost? && Write(old(View()), e, f).Written?)
    {
      if fault == LostBefore(0) { return None; }
      match FindExisting(Store(domains, provenance, evidence), e.key) {
        case Ambiguous => return None;
        case Present(existing) => return Some(existing);
        case Absent =>
      }
      if fault == LostBefore(1) { return None; }
      var ok := EnsureDomain(e, f);
      if !ok || fault == LostBefore(2) { return None; }
      if !IsSource(e.source) || !e.typed || HasProvenance(Store(domains, provenance, evidence), f.provenanceId) { return None; }
      provenance := provenance + [NewProvenance(e, f)];
      if fault == LostBefore(3) { return None; }
      if HasEvidence(Store(domains, provenance, evidence), f.evidenceId) { return None; }
      evidence := evidence + [NewEvidence(e, f)];
      if fault == LostBefore(4) { return None; }
      return Some(WriteResult(f.provenanceId, f.evidenceId, e.domainId, true));
    }
  }

  /** The consumer handler: it binds one store and remembers every result. */
  class EvidenceWriter {
    const store: CanonicalStore
    var results: seq<WriteResult>

    constructor (store: CanonicalStore)
      ensures this.store == store && results == []
    {
      this.store := store;
      results := [];
    }

    method Handle(e: Event, f: Fresh, fault: WriterFault) returns (r: Option<WriteResult>)
      modifies this, store
      ensures Attempted(store.View(), r) == Attempt(old(store.View()), e, f, fault)
      ensures results == old(results) + (if r.Some? then [r.value] else [])
    {
      r := store.WriteEvidence(e, f, fault);
      if r.Some? {
        results := results + [r.value];
      }
    }
  }
}
