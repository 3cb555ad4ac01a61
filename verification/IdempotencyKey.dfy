/** Idempotency-key derivation in both SDKs, up to the hash: the canonical document that is
    hashed, what it identifies, and when the two languages hash the same text. */
module IdempotencyKey {
  import opened Sorting
  import opened Wrappers
  import opened CanonicalJson
  import opened CanonicalParity

  // "event_type" and "key_fields"
  const EVENT_TYPE: Units := [0x65, 0x76, 0x65, 0x6e, 0x74, 0x5f, 0x74, 0x79, 0x70, 0x65]
  const KEY_FIELDS: Units := [0x6b, 0x65, 0x79, 0x5f, 0x66, 0x69, 0x65, 0x6c, 0x64, 0x73]

  datatype Derived = NoKeyFields | MissingFields(names: seq<Units>) | NotCanonical | Digest(hex: string)

  function Select(payload: seq<Member>, fields: seq<Units>): seq<Member> {
    if |fields| == 0 then []
    else
      var k := fields[|fields| - 1];
      Assign(Select(payload, fields[..|fields| - 1]), k, Lookup(payload, k))
  }

  function Document(eventType: Units, payload: seq<Member>, fields: seq<Units>): Json {
    JObject([Member(EVENT_TYPE, JString(eventType)), Member(KEY_FIELDS, JObject(Select(payload, fields)))])
  }

  function Missing(payload: seq<Member>, fields: seq<Units>): seq<Units> {
    Filter((k: Units) => !HasMember(payload, k), fields)
  }

  function Derive(sha256: string -> string, eventType: Units, payload: seq<Member>, fields: seq<Units>): Derived {
    if |fields| == 0 then NoKeyFields
    else if |Missing(payload, fields)| > 0 then MissingFields(Missing(payload, fields))
    else
      match Encode(Document(eventType, payload, fields))
      case None => NotCanonical
      case Some(text) => Digest(sha256(text))
  }

  method DeriveIdempotencyKey(sha256: string -> string, eventType: Units, payload: seq<Member>, keyFields: seq<Units>)
    returns (r: Derived)
    ensures r == Derive(sha256, eventType, payload, keyFields)
  {
    if |keyFields| == 0 { return NoKeyFields; }
    var missing := Missing(payload, keyFields);
    if |missing| > 0 { return MissingFields(missing); }
    var selected: seq<Member> := [];
    for i := 0 to |keyFields|
      invariant selected == Select(payload, keyFields[..i])
    {
      assert keyFields[..i + 1][..i] == keyFields[..i];
      selected := Assign(selected, keyFields[i], Lookup(payload, keyFields[i]));
    }
    assert keyFields[..|keyFields|] == keyFields;
    match Encode(JObject([Member(EVENT_TYPE, JString(eventType)), Member(KEY_FIELDS, JObject(selected))])) {
      case None => r := NotCanonical;
      case Some(text) => r := Digest(sha256(text));
    }
  }

  // ---- What the document identifies ---------------------------------------------------------

  /** The selection has exactly the named fields, with the payload's values. */
  lemma {:induction false} SelectFacts(payload: seq<Member>, fields: seq<Units>)
    ensures ProperMembers(Select(payload, fields))
    ensures forall x :: HasMember(Select(payload, fields), x) <==> x in fields
    ensures forall i :: 0 <= i < |Select(payload, fields)| ==>
              Select(payload, fields)[i].value == Lookup(payload, Select(payload, fields)[i].key)
  {
    if |fields| > 0 {
      var n := |fields| - 1;
      SelectFacts(payload, fields[..n]);
      AssignFacts(Select(payload, fields[..n]), fields[n], Lookup(payload, fields[n]));
      assert fields == fields[..n] + [fields[n]];
    }
  }

  ghost predicate ProperPayload(payload: seq<Member>) {
    Proper(JObject(payload))
  }

  lemma {:induction false} LookupFacts(payload: seq<Member>, k: Units)
    requires forall i :: 0 <= i < |payload| ==> Proper(payload[i].value)
    ensures Proper(Lookup(payload, k))
  {
    if |payload| > 0 {
      assert Proper(payload[0].value);
      assert forall i :: 0 <= i < |payload[1..]| ==> payload[1..][i] == payload[i + 1];
      LookupFacts(payload[1..], k);
    }
  }

  lemma DocumentProper(eventType: Units, payload: seq<Member>, fields: seq<Units>)
    requires ProperPayload(payload)
    ensures Proper(Document(eventType, payload, fields))
    ensures Encodable(Document(eventType, payload, fields)) <==> forall k :: k in fields ==> Encodable(Lookup(payload, k))
  {
    var sel := Select(payload, fields);
    SelectFacts(payload, fields);
    forall i | 0 <= i < |sel| ensures Proper(sel[i].value) && sel[i].key in fields {
      LookupFacts(payload, sel[i].key);
      assert HasMember(sel, sel[i].key);
    }
    assert EVENT_TYPE[0] != KEY_FIELDS[0];
    assert Proper(JObject(sel));
    var d := Document(eventType, payload, fields);
    assert d.members[0].value == JString(eventType) && d.members[1].value == JObject(sel);
    if Encodable(d) {
      assert Encodable(d.members[1].value);
      forall k | k in fields ensures Encodable(Lookup(payload, k)) {
        assert HasMember(sel, k);
        var i :| 0 <= i < |sel| && sel[i].key == k;
      }
    }
  }

  ghost predicate SameLogicalEvent(e1: Units, p1: seq<Member>, f1: seq<Units>, e2: Units, p2: seq<Member>, f2: seq<Units>) {
    e1 == e2 && (forall k :: k in f1 <==> k in f2) && forall k :: k in f1 ==> SameData(Lookup(p1, k), Lookup(p2, k))
  }

  ghost predicate Derivable(payload: seq<Member>, fields: seq<Units>) {
    |fields| > 0 && ProperPayload(payload) && forall k :: k in fields ==> HasMember(payload, k) && Encodable(Lookup(payload, k))
  }

  /** Two derivations hash the same text exactly when they are about the same event type, name
      the same fields, in whatever order and however often, and read the same data from each. */
  lemma TextIdentifiesTheEvent(e1: Units, p1: seq<Member>, f1: seq<Units>, e2: Units, p2: seq<Member>, f2: seq<Units>)
    requires ProperPayload(p1) && ProperPayload(p2)
    requires forall k :: k in f1 ==> Encodable(Lookup(p1, k))
    requires forall k :: k in f2 ==> Encodable(Lookup(p2, k))
    ensures Encode(Document(e1, p1, f1)).Some?
    ensures Encode(Document(e1, p1, f1)) == Encode(Document(e2, p2, f2))
            <==> SameLogicalEvent(e1, p1, f1, e2, p2, f2)
  {
    DocumentProper(e1, p1, f1);
    DocumentProper(e2, p2, f2);
    CanonicalTextIdentifiesData(Document(e1, p1, f1), Document(e2, p2, f2));
    DocumentsSameData(e1, Select(p1, f1), e2, Select(p2, f2));
    SelectionsSameData(p1, f1, p2, f2);
  }

  lemma {:induction false} NothingMissing(payload: seq<Member>, fields: seq<Units>)
    ensures |Missing(payload, fields)| == 0 <==> forall k :: k in fields ==> HasMember(payload, k)
  {
    if |fields| > 0 {
      NothingMissing(payload, fields[1..]);
      assert fields == [fields[0]] + fields[1..];
    }
  }

  /** Derivation succeeds on every derivable event, hashing the text of its document. */
  lemma DerivesDigest(sha256: string -> string, eventType: Units, payload: seq<Member>, fields: seq<Units>)
    requires Derivable(payload, fields)
    ensures Encode(Document(eventType, payload, fields)).Some?
    ensures Derive(sha256, eventType, payload, fields) == Digest(sha256(Encode(Document(eventType, payload, fields)).value))
  {
    NothingMissing(payload, fields);
    DocumentProper(eventType, payload, fields);
    EncodePrintsCanon(Document(eventType, payload, fields));
  }

  /** Unless the hash collides on the two documents, two keys are equal exactly for the same
      logical event. */
  lemma KeysIdentifyEvents(sha256: string -> string, e1: Units, p1: seq<Member>, f1: seq<Units>, e2: Units, p2: seq<Member>, f2: seq<Units>,
                           t1: string, t2: string)
    requires Derivable(p1, f1) && Encode(Document(e1, p1, f1)) == Some(t1)
    requires Derivable(p2, f2) && Encode(Document(e2, p2, f2)) == Some(t2)
    requires sha256(t1) == sha256(t2) ==> t1 == t2
    ensures Derive(sha256, e1, p1, f1) == Derive(sha256, e2, p2, f2) <==> SameLogicalEvent(e1, p1, f1, e2, p2, f2)
  {
    DerivesDigest(sha256, e1, p1, f1);
    DerivesDigest(sha256, e2, p2, f2);
    TextIdentifiesTheEvent(e1, p1, f1, e2, p2, f2);
  }

  lemma DocumentsSameData(e1: Units, s1: seq<Member>, e2: Units, s2: seq<Member>)
    ensures var a := JObject([Member(EVENT_TYPE, JString(e1)), Member(KEY_FIELDS, JObject(s1))]);
            var b := JObject([Member(EVENT_TYPE, JString(e2)), Member(KEY_FIELDS, JObject(s2))]);
            SameData(a, b) <==> e1 == e2 && SameData(JObject(s1), JObject(s2))
  {
    var a := JObject([Member(EVENT_TYPE, JString(e1)), Member(KEY_FIELDS, JObject(s1))]);
    var b := JObject([Member(EVENT_TYPE, JString(e2)), Member(KEY_FIELDS, JObject(s2))]);
    assert EVENT_TYPE[0] != KEY_FIELDS[0];
    forall k ensures HasMember(a.members, k) <==> HasMember(b.members, k) {
      HasMemberCons(a.members, k);
      HasMemberCons(b.members, k);
      HasMemberCons(a.members[1..], k);
      HasMemberCons(b.members[1..], k);
    }
    if SameData(a, b) {
      assert SameData(a.members[0].value, b.members[0].value);
      assert SameData(a.members[1].value, b.members[1].value);
    }
  }

  lemma SelectionsSameData(p1: seq<Member>, f1: seq<Units>, p2: seq<Member>, f2: seq<Units>)
    ensures SameData(JObject(Select(p1, f1)), JObject(Select(p2, f2)))
            <==> (forall k :: k in f1 <==> k in f2) && (forall k :: k in f1 ==> SameData(Lookup(p1, k), Lookup(p2, k)))
  {
    var s1, s2 := Select(p1, f1), Select(p2, f2);
    SelectFacts(p1, f1);
    SelectFacts(p2, f2);
    if SameData(JObject(s1), JObject(s2)) {
      SameSelectionsSameFields(s1, f1, s2, f2);
      forall k | k in f1 ensures SameData(Lookup(p1, k), Lookup(p2, k)) {
        SameSelectionsSameValue(s1, p1, s2, p2, k);
      }
    } else if (forall k :: k in f1 <==> k in f2) && (forall k :: k in f1 ==> SameData(Lookup(p1, k), Lookup(p2, k))) {
      SameFieldsSameSelections(s1, p1, f1, s2, p2, f2);
    }
  }

  ghost predicate ReadsFrom(s: seq<Member>, payload: seq<Member>) {
    forall i :: 0 <= i < |s| ==> s[i].value == Lookup(payload, s[i].key)
  }

  lemma SameSelectionsSameFields(s1: seq<Member>, f1: seq<Units>, s2: seq<Member>, f2: seq<Units>)
    requires SameData(JObject(s1), JObject(s2))
    requires (forall x :: HasMember(s1, x) <==> x in f1) && (forall x :: HasMember(s2, x) <==> x in f2)
    ensures forall k :: k in f1 <==> k in f2
  {
    forall k ensures k in f1 <==> k in f2 {
      assert HasMember(s1, k) <==> HasMember(s2, k);
    }
  }

  lemma SameSelectionsSameValue(s1: seq<Member>, p1: seq<Member>, s2: seq<Member>, p2: seq<Member>, k: Units)
    requires SameData(JObject(s1), JObject(s2)) && ReadsFrom(s1, p1) && ReadsFrom(s2, p2)
    requires HasMember(s1, k)
    ensures SameData(Lookup(p1, k), Lookup(p2, k))
  {
    assert HasMember(s2, k);
    var i :| 0 <= i < |s1| && s1[i].key == k;
    var j :| 0 <= j < |s2| && s2[j].key == k;
    assert SameData(s1[i].value, s2[j].value);
  }

  lemma SameFieldsSameSelections(s1: seq<Member>, p1: seq<Member>, f1: seq<Units>, s2: seq<Member>, p2: seq<Member>, f2: seq<Units>)
    requires ReadsFrom(s1, p1) && ReadsFrom(s2, p2)
    requires (forall x :: HasMember(s1, x) <==> x in f1) && (forall x :: HasMember(s2, x) <==> x in f2)
    requires (forall k :: k in f1 <==> k in f2) && (forall k :: k in f1 ==> SameData(Lookup(p1, k), Lookup(p2, k)))
    ensures SameData(JObject(s1), JObject(s2))
  {
    forall k ensures HasMember(s1, k) <==> HasMember(s2, k) {
      assert k in f1 <==> k in f2;
    }
    forall i, j | 0 <= i < |s1| && 0 <= j < |s2| && s1[i].key == s2[j].key
      ensures SameData(s1[i].value, s2[j].value)
    {
      assert HasMember(s1, s1[i].key);
    }
  }

  // ---- The Python derivation -----------------------------------------------------------------

  function PyLookup(members: seq<PyMember>, k: Points): PyJson {
    if |members| == 0 then PyNone
    else if members[0].key == k then members[0].value
    else PyLookup(members[1..], k)
  }

  function PyAssign(members: seq<PyMember>, k: Points, v: PyJson): seq<PyMember> {
    if |members| == 0 then [PyMember(k, v)]
    else if members[0].key == k then [PyMember(k, v)] + members[1..]
    else [members[0]] + PyAssign(members[1..], k, v)
  }

  /** The dict comprehension over key_fields. */
  function PySelect(payload: seq<PyMember>, fields: seq<Points>): seq<PyMember> {
    if |fields| == 0 then []
    else
      var k := fields[|fields| - 1];
      PyAssign(PySelect(payload, fields[..|fields| - 1]), k, PyLookup(payload, k))
  }

  function PyDocument(eventType: Points, payload: seq<PyMember>, fields: seq<Points>): PyJson {
    PyDict([PyMember(EVENT_TYPE, PyStr(eventType)), PyMember(KEY_FIELDS, PyDict(PySelect(payload, fields)))])
  }

  predicate PyOwns(payload: seq<PyMember>, k: Points) {
    exists i :: 0 <= i < |payload| && payload[i].key == k
  }

  predicate AllOwned(payload: seq<PyMember>, fields: seq<Points>) {
    forall i :: 0 <= i < |fields| ==> PyOwns(payload, fields[i])
  }

  /** The payload object that the TypeScript side sees. */
  function JsPayload(how: Arrival, payload: seq<PyMember>): seq<Member> {
    Merged(Map(Js(how), payload))
  }

  lemma ApartPayload(how: Arrival, payload: seq<PyMember>)
    requires KeysApart(payload)
    ensures JsPayload(how, payload) == Map(Js(how), payload)
  {
    ApartIsProper(how, payload);
    MergedSize(Map(Js(how), payload));
  }

  /** A key that is the same property as k is k. */
  ghost predicate TellsApart(members: seq<PyMember>, k: Points) {
    forall i :: 0 <= i < |members| && Utf16(members[i].key) == Utf16(k) ==> members[i].key == k
  }

  lemma OwnKeyToldApart(payload: seq<PyMember>, k: Points)
    requires KeysApart(payload) && PyOwns(payload, k)
    ensures TellsApart(payload, k)
  {
    var j :| 0 <= j < |payload| && payload[j].key == k;
    forall i | 0 <= i < |payload| && Utf16(payload[i].key) == Utf16(k) ensures payload[i].key == k {
      assert i == j;
    }
  }

  lemma {:induction false} LookupParity(how: Arrival, members: seq<PyMember>, k: Points)
    requires TellsApart(members, k) && PyOwns(members, k)
    ensures Lookup(Map(Js(how), members), Utf16(k)) == ToJs(how, PyLookup(members, k))
  {
    var js := Map(Js(how), members);
    assert js[1..] == Map(Js(how), members[1..]);
    if members[0].key != k {
      var i :| 0 <= i < |members| && members[i].key == k;
      assert members[1..][i - 1].key == k;
      assert forall j :: 0 <= j < |members[1..]| ==> members[1..][j] == members[j + 1];
      LookupParity(how, members[1..], k);
    }
  }

  lemma ToJsCons(how: Arrival, m: PyMember, rest: seq<PyMember>)
    ensures Map(Js(how), [m] + rest) == [Js(how)(m)] + Map(Js(how), rest)
  {}

  lemma AssignCons(m: Member, rest: seq<Member>, k: Units, v: Json)
    ensures Assign([m] + rest, k, v) == if m.key == k then [Member(k, v)] + rest else [m] + Assign(rest, k, v)
  {
    assert ([m] + rest)[1..] == rest;
  }

  lemma PyAssignCons(m: PyMember, rest: seq<PyMember>, k: Points, v: PyJson)
    ensures PyAssign([m] + rest, k, v) == if m.key == k then [PyMember(k, v)] + rest else [m] + PyAssign(rest, k, v)
  {
    assert ([m] + rest)[1..] == rest;
  }

  lemma {:induction false} AssignParity(how: Arrival, members: seq<PyMember>, k: Points, v: PyJson)
    requires TellsApart(members, k)
    ensures Map(Js(how), PyAssign(members, k, v)) == Assign(Map(Js(how), members), Utf16(k), ToJs(how, v))
  {
    if |members| == 0 {
      assert Map(Js(how), members) == [];
    } else {
      var m, rest := members[0], members[1..];
      assert members == [m] + rest;
      assert forall i :: 0 <= i < |rest| ==> rest[i] == members[i + 1];
      AssignParity(how, rest, k, v);
      AssignParityStep(how, m, rest, k, v);
    }
  }

  lemma AssignParityStep(how: Arrival, m: PyMember, rest: seq<PyMember>, k: Points, v: PyJson)
    requires Utf16(m.key) == Utf16(k) <==> m.key == k
    requires Map(Js(how), PyAssign(rest, k, v)) == Assign(Map(Js(how), rest), Utf16(k), ToJs(how, v))
    ensures Map(Js(how), PyAssign([m] + rest, k, v)) == Assign(Map(Js(how), [m] + rest), Utf16(k), ToJs(how, v))
  {
    ToJsCons(how, m, rest);
    AssignCons(Js(how)(m), Map(Js(how), rest), Utf16(k), ToJs(how, v));
    PyAssignCons(m, rest, k, v);
    if m.key == k {
      ToJsCons(how, PyMember(k, v), rest);
    } else {
      ToJsCons(how, m, PyAssign(rest, k, v));
    }
  }

  lemma {:induction false} PyAssignKeys(members: seq<PyMember>, k: Points, v: PyJson, i: nat)
    requires i < |PyAssign(members, k, v)|
    ensures PyAssign(members, k, v)[i].key == k || PyOwns(members, PyAssign(members, k, v)[i].key)
  {
    if |members| > 0 && i > 0 && members[0].key != k {
      PyAssignKeys(members[1..], k, v, i - 1);
      if j :| 0 <= j < |members[1..]| && members[1..][j].key == PyAssign(members, k, v)[i].key {
        assert members[j + 1].key == PyAssign(members, k, v)[i].key;
      }
    } else if |members| > 0 {
      assert PyAssign(members, k, v)[i].key == k || PyAssign(members, k, v)[i] == members[i];
    }
  }

  /** Only fields of the payload are selected. */
  lemma {:induction false} PySelectKeys(payload: seq<PyMember>, fields: seq<Points>)
    requires AllOwned(payload, fields)
    ensures forall i :: 0 <= i < |PySelect(payload, fields)| ==> PyOwns(payload, PySelect(payload, fields)[i].key)
  {
    if |fields| > 0 {
      var before, k := fields[..|fields| - 1], fields[|fields| - 1];
      var selected := PySelect(payload, before);
      PySelectKeys(payload, before);
      forall i | 0 <= i < |PySelect(payload, fields)| ensures PyOwns(payload, PySelect(payload, fields)[i].key) {
        PyAssignKeys(selected, k, PyLookup(payload, k), i);
      }
    }
  }

  lemma SelectAppend(payload: seq<Member>, fields: seq<Units>, k: Units)
    ensures Select(payload, fields + [k]) == Assign(Select(payload, fields), k, Lookup(payload, k))
  {
    assert (fields + [k])[..|fields|] == fields;
  }

  lemma PySelectAppend(payload: seq<PyMember>, fields: seq<Points>, k: Points)
    ensures PySelect(payload, fields + [k]) == PyAssign(PySelect(payload, fields), k, PyLookup(payload, k))
  {
    assert (fields + [k])[..|fields|] == fields;
  }

  /** Both SDKs select the same properties. */
  ghost predicate SelectedAlike(how: Arrival, payload: seq<PyMember>, fields: seq<Points>) {
    Map(Js(how), PySelect(payload, fields)) == Select(Map(Js(how), payload), Map(Utf16, fields))
  }

  lemma SelectedToldApart(payload: seq<PyMember>, before: seq<Points>, k: Points)
    requires KeysApart(payload) && PyOwns(payload, k) && AllOwned(payload, before)
    ensures TellsApart(PySelect(payload, before), k)
  {
    var selected := PySelect(payload, before);
    PySelectKeys(payload, before);
    OwnKeyToldApart(payload, k);
    forall i | 0 <= i < |selected| && Utf16(selected[i].key) == Utf16(k) ensures selected[i].key == k {
      var j :| 0 <= j < |payload| && payload[j].key == selected[i].key;
    }
  }

  lemma SelectOneMore(how: Arrival, payload: seq<PyMember>, before: seq<Points>, k: Points)
    requires KeysApart(payload) && PyOwns(payload, k) && AllOwned(payload, before)
    requires SelectedAlike(how, payload, before)
    ensures SelectedAlike(how, payload, before + [k])
  {
    OwnKeyToldApart(payload, k);
    LookupParity(how, payload, k);
    SelectedToldApart(payload, before, k);
    AssignParity(how, PySelect(payload, before), k, PyLookup(payload, k));
    PySelectAppend(payload, before, k);
    MapAppend(before, k);
    SelectAppend(Map(Js(how), payload), Map(Utf16, before), Utf16(k));
  }

  lemma SelectNothing(how: Arrival, payload: seq<PyMember>)
    ensures SelectedAlike(how, payload, [])
  {
    assert Map(Utf16, []) == [] && Map(Js(how), []) == [];
  }

  lemma LastApart(fields: seq<Points>)
    requires |fields| > 0
    ensures fields == fields[..|fields| - 1] + [fields[|fields| - 1]]
  {}

  lemma OwnedPrefix(payload: seq<PyMember>, before: seq<Points>, k: Points)
    ensures AllOwned(payload, before + [k]) ==> AllOwned(payload, before) && PyOwns(payload, k)
  {
    if AllOwned(payload, before + [k]) {
      assert (before + [k])[|before|] == k;
      forall i | 0 <= i < |before| ensures PyOwns(payload, before[i]) { assert (before + [k])[i] == before[i]; }
    }
  }

  lemma {:induction false} SelectParity(how: Arrival, payload: seq<PyMember>, fields: seq<Points>)
    requires KeysApart(payload) && AllOwned(payload, fields)
    ensures SelectedAlike(how, payload, fields)
  {
    if |fields| == 0 {
      assert fields == [];
      SelectNothing(how, payload);
    } else {
      var before, k := fields[..|fields| - 1], fields[|fields| - 1];
      LastApart(fields);
      OwnedPrefix(payload, before, k);
      SelectParity(how, payload, before);
      SelectOneMore(how, payload, before, k);
    }
  }

  lemma MapAppend(fields: seq<Points>, k: Points)
    ensures Map(Utf16, fields + [k]) == Map(Utf16, fields) + [Utf16(k)]
  {}

  lemma PairToJs(how: Arrival, a: PyMember, b: PyMember, u1: Units, j1: Json, u2: Units, j2: Json)
    requires Utf16(a.key) == u1 && ToJs(how, a.value) == j1 && Utf16(b.key) == u2 && ToJs(how, b.value) == j2 && u1 != u2
    ensures ToJs(how, PyDict([a, b])) == JObject([Member(u1, j1), Member(u2, j2)])
  {
    ApartMembers(how, [a, b]);
    assert Map(Js(how), [a, b]) == [Js(how)(a), Js(how)(b)];
  }

  lemma StringToJs(how: Arrival, s: Points)
    ensures ToJs(how, PyStr(s)) == JString(Utf16(s))
  {}

  lemma DocumentToJs(how: Arrival, eventType: Points, selected: seq<PyMember>, js: seq<Member>)
    requires Map(Js(how), selected) == js && ProperMembers(js)
    ensures ToJs(how, PyDict([PyMember(EVENT_TYPE, PyStr(eventType)), PyMember(KEY_FIELDS, PyDict(selected))]))
            == JObject([Member(EVENT_TYPE, JString(Utf16(eventType))), Member(KEY_FIELDS, JObject(js))])
  {
    ApartIsProper(how, selected);
    ApartMembers(how, selected);
    StringToJs(how, eventType);
    AsciiKeys();
    assert EVENT_TYPE[0] != KEY_FIELDS[0];
    PairToJs(how, PyMember(EVENT_TYPE, PyStr(eventType)), PyMember(KEY_FIELDS, PyDict(selected)),
             EVENT_TYPE, JString(Utf16(eventType)), KEY_FIELDS, JObject(js));
  }

  /** Where the payload's keys stay apart, the TypeScript document is the Python document. */
  lemma DocumentParity(how: Arrival, eventType: Points, payload: seq<PyMember>, fields: seq<Points>)
    requires KeysApart(payload) && AllOwned(payload, fields)
    ensures Document(Utf16(eventType), JsPayload(how, payload), Map(Utf16, fields)) == ToJs(how, PyDocument(eventType, payload, fields))
  {
    ApartPayload(how, payload);
    SelectParity(how, payload, fields);
    SelectFacts(Map(Js(how), payload), Map(Utf16, fields));
    DocumentToJs(how, eventType, PySelect(payload, fields), Select(Map(Js(how), payload), Map(Utf16, fields)));
  }

  /** For a payload that both SDKs see, the two derivations hash the same text exactly when the
      document agrees: no clashing keys, and parsed integers that keep their digits. */
  lemma DerivationParity(how: Arrival, eventType: Points, payload: seq<PyMember>, fields: seq<Points>)
    requires KeysApart(payload) && PyProper(PyDocument(eventType, payload, fields)) && InRange(how, PyDocument(eventType, payload, fields))
    requires AllOwned(payload, fields)
    ensures Encode(Document(Utf16(eventType), JsPayload(how, payload), Map(Utf16, fields)))
            == Some(PyText(PyDocument(eventType, payload, fields)))
            <==> Agrees(how, PyDocument(eventType, payload, fields))
  {
    DocumentParity(how, eventType, payload, fields);
    ParityIffAgrees(how, PyDocument(eventType, payload, fields));
  }

  // ---- The whole Python derivation ------------------------------------------------------------

  datatype PyDerived = PyNoKeyFields | PyMissingFields(names: seq<Points>) | PyDigest(hex: string)

  function PyMissing(payload: seq<PyMember>, fields: seq<Points>): seq<Points> {
    Filter((k: Points) => !PyOwns(payload, k), fields)
  }

  function PyDerive(sha256: string -> string, eventType: Points, payload: seq<PyMember>, fields: seq<Points>): PyDerived {
    if |fields| == 0 then PyNoKeyFields
    else if |PyMissing(payload, fields)| > 0 then PyMissingFields(PyMissing(payload, fields))
    else PyDigest(sha256(PyText(PyDocument(eventType, payload, fields))))
  }

  /** A field that the payload lacks, but that is the same JavaScript property as one of its
      keys. */
  predicate Hidden(payload: seq<PyMember>, k: Points) {
    !PyOwns(payload, k) && exists i :: 0 <= i < |payload| && Utf16(payload[i].key) == Utf16(k)
  }

  predicate NoneHidden(payload: seq<PyMember>, fields: seq<Points>) {
    forall i :: 0 <= i < |fields| ==> !Hidden(payload, fields[i])
  }

  lemma OwnsParity(how: Arrival, payload: seq<PyMember>, k: Points)
    ensures HasMember(JsPayload(how, payload), Utf16(k)) <==> PyOwns(payload, k) || Hidden(payload, k)
  {
    var js := Map(Js(how), payload);
    MergedFacts(js);
    assert HasMember(JsPayload(how, payload), Utf16(k)) <==> HasMember(js, Utf16(k));
    if i :| 0 <= i < |js| && js[i].key == Utf16(k) { assert Utf16(payload[i].key) == Utf16(k); }
    if i :| 0 <= i < |payload| && Utf16(payload[i].key) == Utf16(k) { assert js[i].key == Utf16(k); }
  }

  /** The TypeScript side misses the fields that the Python side misses, except hidden ones. */
  lemma {:induction false} MissingParity(how: Arrival, payload: seq<PyMember>, fields: seq<Points>)
    ensures |Missing(JsPayload(how, payload), Map(Utf16, fields))| <= |PyMissing(payload, fields)|
    ensures if NoneHidden(payload, fields)
            then Missing(JsPayload(how, payload), Map(Utf16, fields)) == Map(Utf16, PyMissing(payload, fields))
            else |Missing(JsPayload(how, payload), Map(Utf16, fields))| < |PyMissing(payload, fields)|
  {
    if |fields| > 0 {
      var k, rest := fields[0], fields[1..];
      MissingParity(how, payload, rest);
      OwnsParity(how, payload, k);
      NoneHiddenCons(payload, fields);
      assert Map(Utf16, fields)[0] == Utf16(k) && Map(Utf16, fields)[1..] == Map(Utf16, rest);
      FilterHead((x: Units) => !HasMember(JsPayload(how, payload), x), Map(Utf16, fields));
      FilterHead((x: Points) => !PyOwns(payload, x), fields);
      MapCons(k, PyMissing(payload, rest));
    } else {
      assert Map(Utf16, fields) == [];
    }
  }

  lemma NoneHiddenCons(payload: seq<PyMember>, fields: seq<Points>)
    requires |fields| > 0
    ensures NoneHidden(payload, fields) <==> !Hidden(payload, fields[0]) && NoneHidden(payload, fields[1..])
  {
    assert forall i :: 0 <= i < |fields[1..]| ==> fields[1..][i] == fields[i + 1];
    if !Hidden(payload, fields[0]) && NoneHidden(payload, fields[1..]) {
      forall i | 0 <= i < |fields| ensures !Hidden(payload, fields[i]) {
        if i > 0 { assert fields[i] == fields[1..][i - 1]; }
      }
    }
  }

  lemma MapCons(k: Points, rest: seq<Points>)
    ensures Map(Utf16, [k] + rest) == [Utf16(k)] + Map(Utf16, rest)
    ensures Map(Utf16, [] + rest) == Map(Utf16, rest)
  {
    assert [] + rest == rest;
  }

  lemma {:induction false} LookupEncodable(payload: seq<Member>, k: Units)
    requires AllEncodable(payload)
    ensures Encodable(Lookup(payload, k))
  {
    if |payload| > 0 {
      assert Encodable(payload[0].value);
      assert forall i :: 0 <= i < |payload[1..]| ==> payload[1..][i] == payload[i + 1];
      LookupEncodable(payload[1..], k);
    }
  }

  /** The TypeScript side can print every document made from a Python payload. */
  lemma JsDocumentEncodable(how: Arrival, eventType: Units, payload: seq<PyMember>, fields: seq<Units>)
    ensures Encode(Document(eventType, JsPayload(how, payload), fields)).Some?
  {
    var js := JsPayload(how, payload);
    var sel := Select(js, fields);
    forall i | 0 <= i < |payload| ensures Encodable(ToJs(how, payload[i].value)) { ToJsEncodable(how, payload[i].value); }
    MergedEncodable(how, payload);
    SelectFacts(js, fields);
    forall i | 0 <= i < |sel| ensures Encodable(sel[i].value) { LookupEncodable(js, sel[i].key); }
    var d := Document(eventType, js, fields);
    assert d.members[0].value == JString(eventType) && d.members[1].value == JObject(sel);
    EncodePrintsCanon(d);
  }

  /** The two derivations come to the same: the same refusal with the same field names, or a
      digest on each side, of each side's own text. */
  ghost predicate SameVerdict(how: Arrival, sha256: string -> string, eventType: Points, payload: seq<PyMember>, fields: seq<Points>) {
    var ts := Derive(sha256, Utf16(eventType), JsPayload(how, payload), Map(Utf16, fields));
    match PyDerive(sha256, eventType, payload, fields)
    case PyNoKeyFields => ts == NoKeyFields
    case PyMissingFields(names) => ts == MissingFields(Map(Utf16, names))
    case PyDigest(hex) =>
      && hex == sha256(PyText(PyDocument(eventType, payload, fields)))
      && var text := Encode(Document(Utf16(eventType), JsPayload(how, payload), Map(Utf16, fields)));
         text.Some? && ts == Digest(sha256(text.value))
  }

  lemma PyMissingVerdict(sha256: string -> string, eventType: Points, payload: seq<PyMember>, fields: seq<Points>)
    requires |PyMissing(payload, fields)| > 0
    ensures PyDerive(sha256, eventType, payload, fields) == PyMissingFields(PyMissing(payload, fields))
  {}

  lemma NamesAreMissing(sha256: string -> string, eventType: Units, payload: seq<Member>, fields: seq<Units>)
    ensures var r := Derive(sha256, eventType, payload, fields); r.MissingFields? ==> r.names == Missing(payload, fields)
  {}

  lemma HiddenSpoils(how: Arrival, sha256: string -> string, eventType: Points, payload: seq<PyMember>, fields: seq<Points>)
    requires !NoneHidden(payload, fields)
    ensures !SameVerdict(how, sha256, eventType, payload, fields)
  {
    MissingParity(how, payload, fields);
    PyMissingVerdict(sha256, eventType, payload, fields);
    NamesAreMissing(sha256, Utf16(eventType), JsPayload(how, payload), Map(Utf16, fields));
    assert |Map(Utf16, PyMissing(payload, fields))| == |PyMissing(payload, fields)|;
  }

  lemma NoneHiddenSameVerdict(how: Arrival, sha256: string -> string, eventType: Points, payload: seq<PyMember>, fields: seq<Points>)
    requires NoneHidden(payload, fields)
    ensures SameVerdict(how, sha256, eventType, payload, fields)
  {
    MissingParity(how, payload, fields);
    JsDocumentEncodable(how, Utf16(eventType), payload, Map(Utf16, fields));
    assert |Map(Utf16, PyMissing(payload, fields))| == |PyMissing(payload, fields)| && |Map(Utf16, fields)| == |fields|;
  }

  /** For every event type, payload and field list, lone surrogates included: the SDKs refuse
      alike, and where they do not refuse each hashes its own text, if and only if no absent
      field is hidden behind a payload key that is the same JavaScript property. */
  lemma BothRefuseAlike(how: Arrival, sha256: string -> string, eventType: Points, payload: seq<PyMember>, fields: seq<Points>)
    ensures SameVerdict(how, sha256, eventType, payload, fields) <==> NoneHidden(payload, fields)
  {
    if NoneHidden(payload, fields) {
      NoneHiddenSameVerdict(how, sha256, eventType, payload, fields);
    } else {
      HiddenSpoils(how, sha256, eventType, payload, fields);
    }
  }

  /** Python misses the field U+10000 of a payload with the two surrogates as its key; TypeScript
      finds it. */
  lemma HiddenFieldIsFound(how: Arrival, sha256: string -> string, eventType: Points, v: PyJson)
    ensures var payload := [PyMember([0xD800, 0xDC00], v)];
            && PyDerive(sha256, eventType, payload, [[0x10000]]) == PyMissingFields([[0x10000]])
            && Derive(sha256, Utf16(eventType), JsPayload(how, payload), Map(Utf16, [[0x10000]])).Digest?
  {
    var payload := [PyMember([0xD800, 0xDC00], v)];
    var fields: seq<Points> := [[0x10000]];
    JoinedKey();
    assert payload[0].key != fields[0] && Utf16(payload[0].key) == Utf16(fields[0]);
    assert !PyOwns(payload, fields[0]) && Hidden(payload, fields[0]);
    MissingParity(how, payload, fields);
    assert fields[1..] == [] && PyMissing(payload, fields) == fields;
    JsDocumentEncodable(how, Utf16(eventType), payload, Map(Utf16, fields));
  }

  lemma NoneMissing(payload: seq<PyMember>, fields: seq<Points>)
    requires |PyMissing(payload, fields)| == 0
    ensures AllOwned(payload, fields) && NoneHidden(payload, fields)
  {
    forall i | 0 <= i < |fields| ensures PyOwns(payload, fields[i]) {
      assert fields[i] in PyMissing(payload, fields) <==> !PyOwns(payload, fields[i]);
    }
  }

  /** Unless the hash collides on the two texts, the two SDKs derive one key for an event exactly
      when its document agrees. */
  lemma DerivedKeysAgree(how: Arrival, sha256: string -> string, eventType: Points, payload: seq<PyMember>, fields: seq<Points>,
                         document: PyJson, t: string, hex: string)
    requires KeysApart(payload)
    requires document == PyDocument(eventType, payload, fields) && PyProper(document) && InRange(how, document)
    requires PyDerive(sha256, eventType, payload, fields) == PyDigest(hex)
    requires Encode(ToJs(how, document)) == Some(t) && (sha256(t) == sha256(PyText(document)) ==> t == PyText(document))
    ensures Derive(sha256, Utf16(eventType), JsPayload(how, payload), Map(Utf16, fields)) == Digest(hex) <==> Agrees(how, document)
  {
    NoneMissing(payload, fields);
    BothRefuseAlike(how, sha256, eventType, payload, fields);
    DocumentParity(how, eventType, payload, fields);
    ParityIffAgrees(how, document);
  }

  lemma AsciiKeys()
    ensures Utf16(EVENT_TYPE) == EVENT_TYPE && Utf16(KEY_FIELDS) == KEY_FIELDS
  {
    BmpUtf16(EVENT_TYPE);
    BmpUtf16(KEY_FIELDS);
  }

  lemma {:induction false} BmpUtf16(s: Points)
    requires forall i :: 0 <= i < |s| ==> s[i] < 0x10000
    ensures Utf16(s) == s
  {
    if |s| > 0 { BmpUtf16(s[1..]); }
  }
}
