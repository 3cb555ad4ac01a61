/** The evidence_current view: DISTINCT ON over an ordered read of the append-only evidence
    table, proved equal to "the latest row of each natural key". */
module EvidenceCurrent {
  import opened Sorting
  import opened EvidenceStore

  function NaturalKey(r: EvidenceRow): Key { [r.domainId.digits, r.signalClass, r.sourceUrl] }

  /** ORDER BY the natural key, then observed_at, recorded_at and evidence_id descending. */
  function ViewKey(r: EvidenceRow): Key {
    [r.domainId.digits, r.signalClass, r.sourceUrl, [-r.observedAt], [-r.recordedAt], [-r.evidenceId]]
  }

  /** DISTINCT ON: of consecutive rows with equal natural keys only the first is kept. */
  function FirstOfGroups(s: seq<EvidenceRow>): seq<EvidenceRow> {
    if |s| == 0 then []
    else
      var n := |s| - 1;
      FirstOfGroups(s[..n]) + (if n == 0 || NaturalKey(s[n]) != NaturalKey(s[n - 1]) then [s[n]] else [])
  }

  function Current(rows: seq<EvidenceRow>): seq<EvidenceRow> {
    FirstOfGroups(SortBy(ViewKey, rows))
  }

  /** Row a is not a later observation than row b. */
  predicate NotLater(a: EvidenceRow, b: EvidenceRow) {
    a.observedAt < b.observedAt
    || (a.observedAt == b.observedAt
        && (a.recordedAt < b.recordedAt || (a.recordedAt == b.recordedAt && a.evidenceId <= b.evidenceId)))
  }

  ghost predicate PrimaryKey(rows: seq<EvidenceRow>) {
    forall a, b :: a in rows && b in rows && a.evidenceId == b.evidenceId ==> a == b
  }

  lemma KeyCons(x: Text, y: Text, a: Key, b: Key)
    ensures KeyLeq([x] + a, [y] + b) <==> (if x == y then KeyLeq(a, b) else TextLeq(x, y))
  {
    assert ([x] + a)[1..] == a && ([y] + b)[1..] == b;
  }

  lemma NumberKey(x: int, y: int)
    ensures [x] == [y] <==> x == y
    ensures TextLeq([x], [y]) <==> x <= y
  {
    assert [x][0] == x && [y][0] == y;
  }

  /** The last three columns of the read order. */
  function TimeKey(r: EvidenceRow): Key { [[-r.observedAt], [-r.recordedAt], [-r.evidenceId]] }

  lemma TimeOrder(a: EvidenceRow, b: EvidenceRow)
    ensures KeyLeq(TimeKey(a), TimeKey(b)) <==> NotLater(b, a)
  {
    var ia: Key, ib: Key := [[-a.evidenceId]], [[-b.evidenceId]];
    KeyCons([-a.evidenceId], [-b.evidenceId], [], []);
    assert ia == [[-a.evidenceId]] + [] && ib == [[-b.evidenceId]] + [];
    KeyCons([-a.recordedAt], [-b.recordedAt], ia, ib);
    KeyCons([-a.observedAt], [-b.observedAt], [[-a.recordedAt]] + ia, [[-b.recordedAt]] + ib);
    assert TimeKey(a) == [[-a.observedAt]] + ([[-a.recordedAt]] + ia);
    assert TimeKey(b) == [[-b.observedAt]] + ([[-b.recordedAt]] + ib);
    NumberKey(-a.evidenceId, -b.evidenceId);
    NumberKey(-a.recordedAt, -b.recordedAt);
    NumberKey(-a.observedAt, -b.observedAt);
  }

  lemma {:induction false} SamePrefix(p: Key, a: Key, b: Key)
    ensures KeyLeq(p + a, p + b) <==> KeyLeq(a, b)
  {
    if |p| == 0 {
      assert p + a == a && p + b == b;
    } else {
      assert (p + a)[1..] == p[1..] + a && (p + b)[1..] == p[1..] + b;
      SamePrefix(p[1..], a, b);
    }
  }

  /** Within one natural key the read order is latest first. */
  lemma OrderWithinGroup(a: EvidenceRow, b: EvidenceRow)
    requires NaturalKey(a) == NaturalKey(b)
    ensures KeyLeq(ViewKey(a), ViewKey(b)) <==> NotLater(b, a)
  {
    assert ViewKey(a) == NaturalKey(a) + TimeKey(a) && ViewKey(b) == NaturalKey(b) + TimeKey(b);
    SamePrefix(NaturalKey(a), TimeKey(a), TimeKey(b));
    TimeOrder(a, b);
  }

  lemma {:induction false} PrefixLeq(a: Key, b: Key, x: Key, y: Key)
    requires |a| == |b| && KeyLeq(a + x, b + y)
    ensures KeyLeq(a, b)
  {
    if |a| > 0 {
      assert (a + x)[1..] == a[1..] + x && (b + y)[1..] == b[1..] + y;
      if a[0] == b[0] { PrefixLeq(a[1..], b[1..], x, y); }
    }
  }

  lemma NaturalOrder(a: EvidenceRow, b: EvidenceRow)
    requires KeyLeq(ViewKey(a), ViewKey(b))
    ensures KeyLeq(NaturalKey(a), NaturalKey(b))
  {
    assert ViewKey(a) == NaturalKey(a) + [[-a.observedAt], [-a.recordedAt], [-a.evidenceId]];
    assert ViewKey(b) == NaturalKey(b) + [[-b.observedAt], [-b.recordedAt], [-b.evidenceId]];
    PrefixLeq(NaturalKey(a), NaturalKey(b), [[-a.observedAt], [-a.recordedAt], [-a.evidenceId]],
              [[-b.observedAt], [-b.recordedAt], [-b.evidenceId]]);
  }

  /** In a sorted read, equal natural keys are contiguous. */
  lemma Contiguous(s: seq<EvidenceRow>, i: nat, j: nat)
    requires SortedBy(ViewKey, s) && i < j < |s| && NaturalKey(s[i]) == NaturalKey(s[j])
    ensures NaturalKey(s[j - 1]) == NaturalKey(s[j])
  {
    if i < j - 1 {
      NaturalOrder(s[i], s[j - 1]);
      NaturalOrder(s[j - 1], s[j]);
      KeyTotal(NaturalKey(s[j - 1]), NaturalKey(s[j]));
    }
  }

  ghost predicate IsFirst(s: seq<EvidenceRow>, i: nat) {
    i < |s| && forall j :: 0 <= j < i ==> NaturalKey(s[j]) != NaturalKey(s[i])
  }

  lemma FirstInPrefix(s: seq<EvidenceRow>, n: nat, i: nat)
    requires i < n <= |s|
    ensures IsFirst(s[..n], i) <==> IsFirst(s, i)
  {}

  lemma {:induction false} FirstsAreKept(s: seq<EvidenceRow>, i: nat)
    requires IsFirst(s, i)
    ensures s[i] in FirstOfGroups(s)
  {
    var n := |s| - 1;
    if i < n {
      FirstInPrefix(s, n, i);
      FirstsAreKept(s[..n], i);
    }
  }

  lemma {:induction false} KeptAreFirsts(s: seq<EvidenceRow>, p: nat) returns (i: nat)
    requires SortedBy(ViewKey, s) && p < |FirstOfGroups(s)|
    ensures IsFirst(s, i) && FirstOfGroups(s)[p] == s[i]
    ensures p < |FirstOfGroups(s[..|s| - 1])| <==> i < |s| - 1
  {
    var n := |s| - 1;
    if p < |FirstOfGroups(s[..n])| {
      i := KeptAreFirsts(s[..n], p);
      FirstInPrefix(s, n, i);
    } else {
      i := n;
      forall j | 0 <= j < n ensures NaturalKey(s[j]) != NaturalKey(s[n]) {
        if NaturalKey(s[j]) == NaturalKey(s[n]) { Contiguous(s, j, n); }
      }
    }
  }

  lemma {:induction false} KeptKeysDiffer(s: seq<EvidenceRow>, p: nat, q: nat)
    requires SortedBy(ViewKey, s) && p < q < |FirstOfGroups(s)|
    ensures NaturalKey(FirstOfGroups(s)[p]) != NaturalKey(FirstOfGroups(s)[q])
  {
    var n := |s| - 1;
    if q < |FirstOfGroups(s[..n])| {
      KeptKeysDiffer(s[..n], p, q);
    } else {
      var i := KeptAreFirsts(s, p);
      var k := KeptAreFirsts(s, q);
    }
  }

  lemma {:induction false} FirstWithKey(s: seq<EvidenceRow>, i: nat) returns (k: nat)
    requires i < |s|
    ensures k <= i && NaturalKey(s[k]) == NaturalKey(s[i]) && IsFirst(s, k)
  {
    if j :| 0 <= j < i && NaturalKey(s[j]) == NaturalKey(s[i]) {
      k := FirstWithKey(s, j);
    } else {
      k := i;
    }
  }

  ghost predicate Latest(rows: seq<EvidenceRow>, r: EvidenceRow) {
    r in rows && forall x :: x in rows && NaturalKey(x) == NaturalKey(r) ==> NotLater(x, r)
  }

  lemma SortedFirstIsLatest(rows: seq<EvidenceRow>, i: nat)
    requires IsFirst(SortBy(ViewKey, rows), i)
    ensures Latest(rows, SortBy(ViewKey, rows)[i])
  {
    var s := SortBy(ViewKey, rows);
    SortFacts(ViewKey, rows);
    SortMembers(ViewKey, rows);
    assert s[i] in s;
    forall x | x in rows && NaturalKey(x) == NaturalKey(s[i]) ensures NotLater(x, s[i]) {
      var j :| 0 <= j < |s| && s[j] == x;
      OrderWithinGroup(s[i], x);
    }
  }

  lemma CurrentIsLatest(rows: seq<EvidenceRow>, r: EvidenceRow)
    requires PrimaryKey(rows)
    ensures r in Current(rows) <==> Latest(rows, r)
  {
    var s := SortBy(ViewKey, rows);
    SortFacts(ViewKey, rows);
    SortMembers(ViewKey, rows);
    if r in Current(rows) {
      var p :| 0 <= p < |Current(rows)| && Current(rows)[p] == r;
      var i := KeptAreFirsts(s, p);
      SortedFirstIsLatest(rows, i);
    }
    if Latest(rows, r) {
      var i :| 0 <= i < |s| && s[i] == r;
      var k := FirstWithKey(s, i);
      SortedFirstIsLatest(rows, k);
      assert NotLater(s[k], r) && NotLater(r, s[k]);
      assert s[k] in s;
      FirstsAreKept(s, k);
    }
  }

  /** The view's row for the natural key of a row of the table. */
  lemma CurrentFor(rows: seq<EvidenceRow>, r: EvidenceRow) returns (c: EvidenceRow)
    requires r in rows
    ensures c in Current(rows) && NaturalKey(c) == NaturalKey(r) && Latest(rows, c)
  {
    var s := SortBy(ViewKey, rows);
    SortFacts(ViewKey, rows);
    SortMembers(ViewKey, rows);
    var i :| 0 <= i < |s| && s[i] == r;
    var k := FirstWithKey(s, i);
    FirstsAreKept(s, k);
    SortedFirstIsLatest(rows, k);
    c := s[k];
  }

  /** The view holds a row exactly when it is the latest observation of its natural key, and
      has exactly one row for each natural key of the table. */
  lemma CurrentHasOneLatestRowPerKey(rows: seq<EvidenceRow>)
    requires PrimaryKey(rows)
    ensures forall r :: r in Current(rows) <==> Latest(rows, r)
    ensures forall r :: r in rows ==> exists c :: c in Current(rows) && NaturalKey(c) == NaturalKey(r)
    ensures forall p, q :: 0 <= p < q < |Current(rows)| ==> NaturalKey(Current(rows)[p]) != NaturalKey(Current(rows)[q])
  {
    forall r ensures r in Current(rows) <==> Latest(rows, r) {
      CurrentIsLatest(rows, r);
    }
    forall r | r in rows ensures exists c :: c in Current(rows) && NaturalKey(c) == NaturalKey(r) {
      var c := CurrentFor(rows, r);
    }
    SortFacts(ViewKey, rows);
    forall p, q | 0 <= p < q < |Current(rows)|
      ensures NaturalKey(Current(rows)[p]) != NaturalKey(Current(rows)[q])
    {
      KeptKeysDiffer(SortBy(ViewKey, rows), p, q);
    }
  }

  /** Column by column: the view shows a row exactly when no row of the same domain, class and URL
      was observed later, or then recorded later, or then has the higher id. */
  lemma CurrentMeans(rows: seq<EvidenceRow>, r: EvidenceRow)
    requires PrimaryKey(rows)
    ensures r in Current(rows) <==>
              r in rows && forall x :: x in rows && x.domainId == r.domainId && x.signalClass == r.signalClass && x.sourceUrl == r.sourceUrl ==>
                && x.observedAt <= r.observedAt
                && (x.observedAt == r.observedAt ==> x.recordedAt <= r.recordedAt)
                && (x.observedAt == r.observedAt && x.recordedAt == r.recordedAt ==> x.evidenceId <= r.evidenceId)
  {
    CurrentIsLatest(rows, r);
    forall x ensures NaturalKey(x) == NaturalKey(r)
                     <==> x.domainId == r.domainId && x.signalClass == r.signalClass && x.sourceUrl == r.sourceUrl
    {
      SameNaturalKey(x, r);
    }
  }

  lemma SameNaturalKey(a: EvidenceRow, b: EvidenceRow)
    ensures NaturalKey(a) == NaturalKey(b) <==> a.domainId == b.domainId && a.signalClass == b.signalClass && a.sourceUrl == b.sourceUrl
  {
    if NaturalKey(a) == NaturalKey(b) {
      assert NaturalKey(a)[0] == NaturalKey(b)[0] && NaturalKey(a)[1] == NaturalKey(b)[1] && NaturalKey(a)[2] == NaturalKey(b)[2];
    }
  }

  /** A refresh does not depend on the physical order of the rows. */
  lemma RefreshIgnoresRowOrder(a: seq<EvidenceRow>, b: seq<EvidenceRow>)
    requires multiset(a) == multiset(b) && PrimaryKey(a)
    ensures Current(a) == Current(b)
  {
    forall x, y | x in a && y in a && ViewKey(x) == ViewKey(y) ensures x == y {
      assert ViewKey(x)[5] == ViewKey(y)[5];
      assert [-x.evidenceId][0] == [-y.evidenceId][0];
    }
    SortIgnoresOrder(ViewKey, a, b);
  }

  /** After more rows are appended, a refresh keeps every natural key and never moves one to
      an earlier observation. */
  lemma RefreshOnlyMovesForward(rows: seq<EvidenceRow>, more: seq<EvidenceRow>, r: EvidenceRow)
    requires PrimaryKey(rows + more) && r in Current(rows)
    ensures exists c :: c in Current(rows + more) && NaturalKey(c) == NaturalKey(r) && NotLater(r, c)
  {
    assert PrimaryKey(rows) by {
      forall x | x in rows ensures x in rows + more {}
    }
    CurrentIsLatest(rows, r);
    assert r in rows + more;
    var c := CurrentFor(rows + more, r);
  }
}
