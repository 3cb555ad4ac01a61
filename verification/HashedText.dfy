/** Which text the idempotency key is the hash of, in both SDKs, written out; and when a
    derivation refuses. */
module HashedText {
  import opened Sorting
  import opened Wrappers
  import opened Decimal
  import opened Doubles
  import opened CanonicalJson
  import opened CanonicalParity
  import opened IdempotencyKey

  // ---- Texts that quote as themselves ----------------------------------------------------------

  /** Characters that JSON text shows as themselves. */
  predicate Plain(s: string) {
    forall i :: 0 <= i < |s| ==> 0x20 <= s[i] as int <= 0x7e && s[i] != '"' && s[i] != '\\'
  }

  /** The code units, or code points, of a text of such characters. */
  predicate Spells(us: Text, s: string) {
    |us| == |s| && forall i :: 0 <= i < |s| ==> us[i] == s[i] as int
  }

  lemma {:induction false} PlainEscape(us: Units, s: string)
    requires Plain(s) && Spells(us, s)
    ensures Escape(us) == s
  {
    if |s| > 0 {
      PlainEscape(us[1..], s[1..]);
      assert EscapeUnit(us[0]) == [s[0]];
      assert s == [s[0]] + s[1..];
    }
  }

  lemma PlainQuote(us: Units, s: string)
    requires Plain(s) && Spells(us, s)
    ensures Quote(us) == "\"" + s + "\""
  {
    PlainEscape(us, s);
  }

  lemma {:induction false} PyPlainEscape(cs: Points, s: string)
    requires Plain(s) && Spells(cs, s)
    ensures PyEscape(cs) == s
  {
    if |s| > 0 {
      PyPlainEscape(cs[1..], s[1..]);
      assert PyEscapePoint(cs[0]) == [s[0]];
      assert s == [s[0]] + s[1..];
    }
  }

  lemma PyPlainQuote(cs: Points, s: string)
    requires Plain(s) && Spells(cs, s)
    ensures PyQuote(cs) == "\"" + s + "\""
  {
    PyPlainEscape(cs, s);
  }

  lemma QuotedEventType()
    ensures Quote(EVENT_TYPE) == "\"" + "event_type" + "\"" && PyQuote(EVENT_TYPE) == "\"" + "event_type" + "\""
  {
    assert Spells(EVENT_TYPE, "event_type");
    PlainQuote(EVENT_TYPE, "event_type");
    PyPlainQuote(EVENT_TYPE, "event_type");
  }

  lemma QuotedKeyFields()
    ensures Quote(KEY_FIELDS) == "\"" + "key_fields" + "\"" && PyQuote(KEY_FIELDS) == "\"" + "key_fields" + "\""
  {
    assert Spells(KEY_FIELDS, "key_fields");
    PlainQuote(KEY_FIELDS, "key_fields");
    PyPlainQuote(KEY_FIELDS, "key_fields");
  }

  lemma TypeComesFirst()
    ensures EVENT_TYPE != KEY_FIELDS && TextLeq(EVENT_TYPE, KEY_FIELDS)
  {
    assert EVENT_TYPE[0] == 0x65 && KEY_FIELDS[0] == 0x6b;
  }

  // ---- Objects of two properties ------------------------------------------------------------------

  lemma SortsTwo(a: Member, b: Member)
    requires a.key != b.key && TextLeq(a.key, b.key)
    ensures SortBy(MemberKey, [a, b]) == [a, b] && SortBy(MemberKey, [b, a]) == [a, b]
  {
    TextTotal(a.key, b.key);
    assert MemberKey(a)[0] == a.key && MemberKey(b)[0] == b.key;
    assert KeyLeq(MemberKey(a), MemberKey(b)) && !KeyLeq(MemberKey(b), MemberKey(a));
    assert [a, b][1..] == [b] && [b][1..] == [] && [b, a][1..] == [a] && [a][1..] == [];
    assert SortBy(MemberKey, [b]) == [b] && SortBy(MemberKey, [a]) == [a];
    assert Insert(MemberKey, b, [a]) == [a] + Insert(MemberKey, b, []);
  }

  /** The text of an object with two properties, given those of their values, in either order of
      insertion. */
  lemma PairText(members: seq<Member>, a: Member, b: Member, x: string, y: string)
    requires members == [a, b] || members == [b, a]
    requires a.key != b.key && TextLeq(a.key, b.key) && Encode(a.value) == Some(x) && Encode(b.value) == Some(y)
    ensures Encode(JObject(members)) == Some("{" + (Quote(a.key) + ":" + (x + "," + (Quote(b.key) + ":" + y))) + "}")
  {
    SortsTwo(a, b);
    var v := JObject(members);
    assert members[0].value < v && members[1].value < v;
    TwoMembersText(v, a, b, x, y);
  }

  lemma TwoMembersText(owner: Json, a: Member, b: Member, x: string, y: string)
    requires a.value < owner && b.value < owner && Encode(a.value) == Some(x) && Encode(b.value) == Some(y)
    ensures EncodeMembers(owner, [a, b]) == Some(Quote(a.key) + ":" + (x + "," + (Quote(b.key) + ":" + y)))
  {
    LastMemberText(owner, b, y);
    assert [a, b][1..] == [b];
  }

  lemma LastMemberText(owner: Json, b: Member, y: string)
    requires b.value < owner && Encode(b.value) == Some(y)
    ensures EncodeMembers(owner, [b]) == Some(Quote(b.key) + ":" + y)
  {
    assert [b][1..] == [] && EncodeMembers(owner, []) == Some("");
  }

  lemma PySortsTwo(a: PyMember, b: PyMember)
    requires a.key != b.key && TextLeq(a.key, b.key)
    ensures SortBy(PyMemberKey, [a, b]) == [a, b] && SortBy(PyMemberKey, [b, a]) == [a, b]
  {
    TextTotal(a.key, b.key);
    assert PyMemberKey(a)[0] == a.key && PyMemberKey(b)[0] == b.key;
    assert KeyLeq(PyMemberKey(a), PyMemberKey(b)) && !KeyLeq(PyMemberKey(b), PyMemberKey(a));
    assert [a, b][1..] == [b] && [b][1..] == [] && [b, a][1..] == [a] && [a][1..] == [];
    assert SortBy(PyMemberKey, [b]) == [b] && SortBy(PyMemberKey, [a]) == [a];
    assert Insert(PyMemberKey, b, [a]) == [a] + Insert(PyMemberKey, b, []);
  }

  lemma PyTwoMembersText(owner: PyJson, a: PyMember, b: PyMember)
    requires a.value < owner && b.value < owner
    ensures PyMembersText(owner, [a, b]) == PyQuote(a.key) + ":" + (PyText(a.value) + "," + (PyQuote(b.key) + ":" + PyText(b.value)))
  {
    assert [a, b][1..] == [b];
  }

  lemma PyPairText(members: seq<PyMember>, a: PyMember, b: PyMember)
    requires members == [a, b] || members == [b, a]
    requires a.key != b.key && TextLeq(a.key, b.key)
    ensures PyText(PyDict(members))
            == "{" + (PyQuote(a.key) + ":" + (PyText(a.value) + "," + (PyQuote(b.key) + ":" + PyText(b.value)))) + "}"
  {
    PySortsTwo(a, b);
    var v := PyDict(members);
    assert members[0].value < v && members[1].value < v;
    PyTwoMembersText(v, a, b);
  }

  // ---- The document --------------------------------------------------------------------------------

  lemma Opening(q: string)
    requires q == "\"" + "event_type" + "\""
    ensures "{" + q + ":" == "{\"event_type\":"
  {}

  lemma Middle(q: string)
    requires q == "\"" + "key_fields" + "\""
    ensures "," + q + ":" == ",\"key_fields\":"
  {}

  lemma Regrouped(p: string, q: string, t: string, u: string, opening: string, middle: string)
    requires opening == "{" + p + ":" && middle == "," + q + ":"
    ensures "{" + (p + ":" + (t + "," + (q + ":" + u))) + "}" == opening + t + middle + u + "}"
  {}

  lemma DocumentText(eventType: Units, payload: seq<Member>, fields: seq<Units>, selected: string)
    requires Encode(JObject(Select(payload, fields))) == Some(selected)
    ensures Encode(Document(eventType, payload, fields))
            == Some("{" + (Quote(EVENT_TYPE) + ":" + (Quote(eventType) + "," + (Quote(KEY_FIELDS) + ":" + selected))) + "}")
  {
    TypeComesFirst();
    var a, b := Member(EVENT_TYPE, JString(eventType)), Member(KEY_FIELDS, JObject(Select(payload, fields)));
    PairText([a, b], a, b, Quote(eventType), selected);
  }

  lemma PyDocumentText(eventType: Points, payload: seq<PyMember>, fields: seq<Points>)
    ensures PyText(PyDocument(eventType, payload, fields))
            == "{" + (PyQuote(EVENT_TYPE) + ":" + (PyQuote(eventType) + "," + (PyQuote(KEY_FIELDS) + ":" + PyText(PyDict(PySelect(payload, fields)))))) + "}"
  {
    TypeComesFirst();
    var a, b := PyMember(EVENT_TYPE, PyStr(eventType)), PyMember(KEY_FIELDS, PyDict(PySelect(payload, fields)));
    PyPairText([a, b], a, b);
  }

  lemma LiteralDocument(p: string, q: string, t: string, u: string)
    requires p == "\"" + "event_type" + "\"" && q == "\"" + "key_fields" + "\""
    ensures "{" + (p + ":" + (t + "," + (q + ":" + u))) + "}" == "{\"event_type\":" + t + ",\"key_fields\":" + u + "}"
  {
    Opening(p);
    Middle(q);
    Regrouped(p, q, t, u, "{\"event_type\":", ",\"key_fields\":");
  }

  lemma DerivesText(sha256: string -> string, eventType: Units, payload: seq<Member>, fields: seq<Units>, text: string)
    requires |fields| > 0 && (forall k :: k in fields ==> HasMember(payload, k))
    requires Encode(Document(eventType, payload, fields)) == Some(text)
    ensures Derive(sha256, eventType, payload, fields) == Digest(sha256(text))
  {
    NothingMissing(payload, fields);
  }

  /** Which key the TypeScript SDK derives: the hash of the literal document around the quoted
      event type and the canonical text of the selected fields. */
  lemma DerivesHashOf(sha256: string -> string, eventType: Units, payload: seq<Member>, fields: seq<Units>, selected: string)
    requires |fields| > 0 && (forall k :: k in fields ==> HasMember(payload, k))
    requires Encode(JObject(Select(payload, fields))) == Some(selected)
    ensures Derive(sha256, eventType, payload, fields)
            == Digest(sha256("{\"event_type\":" + Quote(eventType) + ",\"key_fields\":" + selected + "}"))
  {
    DocumentText(eventType, payload, fields, selected);
    QuotedEventType();
    QuotedKeyFields();
    LiteralDocument(Quote(EVENT_TYPE), Quote(KEY_FIELDS), Quote(eventType), selected);
    DerivesText(sha256, eventType, payload, fields,
                "{" + (Quote(EVENT_TYPE) + ":" + (Quote(eventType) + "," + (Quote(KEY_FIELDS) + ":" + selected))) + "}");
  }

  lemma {:induction false} PyNoneMissing(payload: seq<PyMember>, fields: seq<Points>)
    requires AllOwned(payload, fields)
    ensures PyMissing(payload, fields) == []
  {
    if |fields| > 0 {
      assert forall i :: 0 <= i < |fields[1..]| ==> fields[1..][i] == fields[i + 1];
      PyNoneMissing(payload, fields[1..]);
    }
  }

  lemma PyDerivesText(sha256: string -> string, eventType: Points, payload: seq<PyMember>, fields: seq<Points>)
    requires |fields| > 0 && AllOwned(payload, fields)
    ensures PyDerive(sha256, eventType, payload, fields) == PyDigest(sha256(PyText(PyDocument(eventType, payload, fields))))
  {
    PyNoneMissing(payload, fields);
  }

  /** And the Python SDK. */
  lemma PyDerivesHashOf(sha256: string -> string, eventType: Points, payload: seq<PyMember>, fields: seq<Points>)
    requires |fields| > 0 && AllOwned(payload, fields)
    ensures PyDerive(sha256, eventType, payload, fields)
            == PyDigest(sha256("{\"event_type\":" + PyQuote(eventType) + ",\"key_fields\":" + PyText(PyDict(PySelect(payload, fields))) + "}"))
  {
    PyDocumentText(eventType, payload, fields);
    QuotedEventType();
    QuotedKeyFields();
    LiteralDocument(PyQuote(EVENT_TYPE), PyQuote(KEY_FIELDS), PyQuote(eventType), PyText(PyDict(PySelect(payload, fields))));
    PyDerivesText(sha256, eventType, payload, fields);
  }

  /** When a derivation refuses: on no fields; on absent fields, naming exactly those; and on a
      named value with a number inside that has no canonical text. */
  lemma RefusesIff(sha256: string -> string, eventType: Units, payload: seq<Member>, fields: seq<Units>)
    requires ProperPayload(payload)
    ensures var r := Derive(sha256, eventType, payload, fields);
            && (r.NoKeyFields? <==> fields == [])
            && (r.MissingFields? <==> exists k :: k in fields && !HasMember(payload, k))
            && (r.MissingFields? ==> forall k :: k in r.names <==> k in fields && !HasMember(payload, k))
            && (r.NotCanonical? <==> fields != [] && (forall k :: k in fields ==> HasMember(payload, k))
                                     && exists k :: k in fields && !Encodable(Lookup(payload, k)))
  {
    NothingMissing(payload, fields);
    DocumentProper(eventType, payload, fields);
    EncodePrintsCanon(Document(eventType, payload, fields));
  }

  // ---- One whole text ---------------------------------------------------------------------------

  lemma SampleQuotes()
    ensures Quote([0x61]) == "\"a\"" && Quote([0x6e]) == "\"n\"" && Quote([0x74]) == "\"t\""
  {
    PlainQuote([0x61], "a");
    PlainQuote([0x6e], "n");
    PlainQuote([0x74], "t");
  }

  lemma SampleEscape()
    ensures Quote([0xe9]) == "\"\\u00e9\""
  {
    EscapeOne(0xe9);
    assert Hex4(0xe9) == "00e9";
  }

  lemma SampleNumber()
    ensures IsDouble(7) && Shortest(7) == 7 && IntText(7) == "7"
  {
    SafeIntegers(7);
  }

  lemma SampleSelection(n: Member, a: Member, x: Member)
    requires n.key == [0x6e] && a.key == [0x61]
    ensures Select([n, a, x], [[0x6e], [0x61]]) == [n, a]
  {
    var payload := [n, a, x];
    assert [0x6e][0] != [0x61][0];
    SelectAppend(payload, [], [0x6e]);
    SelectAppend(payload, [[0x6e]], [0x61]);
    assert [] + [[0x6e]] == [[0x6e]] && [[0x6e]] + [[0x61]] == [[0x6e], [0x61]];
    assert payload[1..][0] == a;
    assert Lookup(payload, [0x6e]) == n.value && Lookup(payload, [0x61]) == a.value;
    assert Select(payload, []) == [];
    assert [n][1..] == [];
  }

  lemma SampleFields(payload: seq<Member>, fields: seq<Units>)
    requires |payload| == 3 && payload[0].key == [0x6e] && payload[1].key == [0x61] && fields == [[0x6e], [0x61]]
    ensures forall k :: k in fields ==> HasMember(payload, k)
  {}

  lemma SampleJoined(a: string, n: string, x: string)
    requires a == "\"a\"" && n == "\"n\"" && x == "\"\\u00e9\""
    ensures "{" + (a + ":" + (x + "," + (n + ":" + "7"))) + "}" == "{\"a\":\"\\u00e9\",\"n\":7}"
  {}

  lemma SampleObject(n: Member, a: Member, x: string)
    requires n.key == [0x6e] && a.key == [0x61] && Encode(n.value) == Some("7") && Encode(a.value) == Some(x) && x == "\"\\u00e9\""
    ensures Encode(JObject([n, a])) == Some("{\"a\":\"\\u00e9\",\"n\":7}")
  {
    SampleQuotes();
    assert a.key[0] < n.key[0];
    PairText([n, a], a, n, x, "7");
    SampleJoined(Quote(a.key), Quote(n.key), x);
  }

  lemma SampleWhole(t: string, selected: string)
    requires t == "\"t\"" && selected == "{\"a\":\"\\u00e9\",\"n\":7}"
    ensures "{\"event_type\":" + t + ",\"key_fields\":" + selected + "}"
            == "{\"event_type\":\"t\",\"key_fields\":{\"a\":\"\\u00e9\",\"n\":7}}"
  {}

  /** The fields are named and stored in one order and printed in the other, and a character
      outside ASCII is escaped. */
  lemma SampleText(sha256: string -> string)
    ensures IsDouble(7)
    ensures var payload := [Member([0x6e], JNumber(Integral(7))), Member([0x61], JString([0xe9])), Member([0x78], JNull)];
            Derive(sha256, [0x74], payload, [[0x6e], [0x61]])
            == Digest(sha256("{\"event_type\":\"t\",\"key_fields\":{\"a\":\"\\u00e9\",\"n\":7}}"))
  {
    SampleNumber();
    SampleQuotes();
    SampleEscape();
    var n, a, x := Member([0x6e], JNumber(Integral(7))), Member([0x61], JString([0xe9])), Member([0x78], JNull);
    var selected := "{\"a\":\"\\u00e9\",\"n\":7}";
    SampleSelection(n, a, x);
    SampleObject(n, a, Quote([0xe9]));
    SampleFields([n, a, x], [[0x6e], [0x61]]);
    DerivesHashOf(sha256, [0x74], [n, a, x], [[0x6e], [0x61]], selected);
    SampleWhole(Quote([0x74]), selected);
  }
}
