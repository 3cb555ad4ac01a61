/** The Python canonical-JSON form over code points, and exactly when the TypeScript printer
    over UTF-16 code units gives the same text. */
module CanonicalParity {
  import opened Sorting
  import opened Wrappers
  import opened Decimal
  import opened Doubles
  import opened CanonicalJson

  /** Code points, the characters of a Python string (lone surrogates included). */
  type Point = c: int | 0 <= c <= 0x10FFFF
  type Points = seq<Point>

  datatype PyMember = PyMember(key: Points, value: PyJson)
  datatype PyJson = PyNone | PyBool(b: bool) | PyInt(n: int) | PyStr(s: Points) | PyList(items: seq<PyJson>) | PyDict(members: seq<PyMember>)

  // ---- json.dumps(..., sort_keys=True, separators=(",", ":")) ---------------------------------

  function HighSurrogate(c: Point): Unit
    requires c >= 0x10000
  {
    0xD800 + (c - 0x10000) / 0x400
  }

  function LowSurrogate(c: Point): Unit
    requires c >= 0x10000
  {
    0xDC00 + (c - 0x10000) % 0x400
  }

  function PyEscapePoint(c: Point): string {
    if c == 0x5c then "\\\\"
    else if c == 0x22 then "\\\""
    else if c == 0x08 then "\\b"
    else if c == 0x0c then "\\f"
    else if c == 0x0a then "\\n"
    else if c == 0x0d then "\\r"
    else if c == 0x09 then "\\t"
    else if 0x20 <= c <= 0x7e then [c as char]
    else if c < 0x10000 then "\\u" + Hex4(c)
    else ("\\u" + Hex4(HighSurrogate(c))) + ("\\u" + Hex4(LowSurrogate(c)))
  }

  function PyEscape(s: Points): string {
    if |s| == 0 then "" else PyEscapePoint(s[0]) + PyEscape(s[1..])
  }

  function PyQuote(s: Points): string {
    "\"" + PyEscape(s) + "\""
  }

  function PyMemberKey(m: PyMember): Key { [m.key] }

  lemma PySortKeepsMembers(members: seq<PyMember>)
    ensures forall i :: 0 <= i < |SortBy(PyMemberKey, members)| ==> SortBy(PyMemberKey, members)[i] in members
  {
    SortMembers(PyMemberKey, members);
  }

  function PyText(v: PyJson): string
    decreases v
  {
    match v
    case PyNone => "null"
    case PyBool(b) => if b then "true" else "false"
    case PyInt(n) => IntText(n)
    case PyStr(s) => PyQuote(s)
    case PyList(items) => "[" + PyItemsText(v, items) + "]"
    case PyDict(members) =>
      PySortKeepsMembers(members);
      "{" + PyMembersText(v, SortBy(PyMemberKey, members)) + "}"
  }

  function PyItemsText(owner: PyJson, items: seq<PyJson>): string
    requires forall i :: 0 <= i < |items| ==> items[i] < owner
    decreases owner, |items|
  {
    if |items| == 0 then ""
    else if |items| == 1 then PyText(items[0])
    else PyText(items[0]) + "," + PyItemsText(owner, items[1..])
  }

  function PyMembersText(owner: PyJson, members: seq<PyMember>): string
    requires forall i :: 0 <= i < |members| ==> members[i].value < owner
    decreases owner, |members|
  {
    if |members| == 0 then ""
    else
      PyQuote(members[0].key) + ":" +
      (if |members| == 1 then PyText(members[0].value)
       else PyText(members[0].value) + "," + PyMembersText(owner, members[1..]))
  }

  // ---- The same value in JavaScript ------------------------------------------------------------

  function PointUnits(c: Point): (r: Units)
    ensures 1 <= |r| <= 2
  {
    if c < 0x10000 then [c] else [HighSurrogate(c), LowSurrogate(c)]
  }

  function Utf16(s: Points): Units {
    if |s| == 0 then [] else PointUnits(s[0]) + Utf16(s[1..])
  }

  /** How integers reach the TypeScript side: handed over as they are, the unsafe ones as
      bigints, or read by JSON.parse, which makes the nearest number of every integer. */
  datatype Arrival = Exact | Parsed

  /** A parsed integer of 1e21 or more is outside the model; claims about parsed documents
      require InRange. */
  function IntToJs(how: Arrival, n: int): Json {
    if -TWO53 < n < TWO53 then
      SafeIntegers(n);
      JNumber(Integral(n))
    else if how.Parsed? && -LIMIT < Nearest(n) < LIMIT then
      NearestIsDouble(n);
      JNumber(Integral(Nearest(n)))
    else JBigInt(n)
  }

  /** A dictionary becomes an object whose properties are written in order: two keys with the
      same code units become one property. */
  function ToJs(how: Arrival, v: PyJson): Json
    decreases v
  {
    match v
    case PyNone => JNull
    case PyBool(b) => JBool(b)
    case PyInt(n) => IntToJs(how, n)
    case PyStr(s) => JString(Utf16(s))
    case PyList(items) => JArray(seq(|items|, i requires 0 <= i < |items| => ToJs(how, items[i])))
    case PyDict(members) =>
      JObject(Merged(seq(|members|, i requires 0 <= i < |members| => Member(Utf16(members[i].key), ToJs(how, members[i].value)))))
  }

  function Js(how: Arrival): PyMember -> Member { (m: PyMember) => Member(Utf16(m.key), ToJs(how, m.value)) }

  /** The tree the Python text denotes. */
  function PyTree(v: PyJson): Tree
    decreases v
  {
    match v
    case PyNone => TNull
    case PyBool(b) => TBool(b)
    case PyInt(n) => TInt(n)
    case PyStr(s) => TString(Utf16(s))
    case PyList(items) => TArray(seq(|items|, i requires 0 <= i < |items| => PyTree(items[i])))
    case PyDict(members) =>
      PySortKeepsMembers(members);
      TObject(PyEntries(v, SortBy(PyMemberKey, members)))
  }

  function PyEntries(owner: PyJson, members: seq<PyMember>): (r: seq<Entry>)
    requires forall i :: 0 <= i < |members| ==> members[i].value < owner
    ensures |r| == |members|
    ensures forall i :: 0 <= i < |members| ==> r[i] == Entry(Utf16(members[i].key), PyTree(members[i].value))
    decreases owner, |members|
  {
    if |members| == 0 then []
    else [Entry(Utf16(members[0].key), PyTree(members[0].value))] + PyEntries(owner, members[1..])
  }

  lemma EscapePair(a: Unit, b: Unit)
    ensures Escape([a, b]) == EscapeUnit(a) + EscapeUnit(b) && Escape([a]) == EscapeUnit(a)
  {
    assert [a, b][1..] == [b] && [b][1..] == [] && [a][1..] == [];
    assert Escape([]) == "" && Escape([b]) == EscapeUnit(b) + "";
  }

  /** Escaping code points is escaping their code units: surrogate pairs included. */
  lemma {:induction false} PyEscapeIsEscape(s: Points)
    ensures PyEscape(s) == Escape(Utf16(s))
  {
    if |s| > 0 {
      PyEscapeIsEscape(s[1..]);
      PointEscape(s[0]);
      EscapeAppend(PointUnits(s[0]), Utf16(s[1..]));
    }
  }

  lemma PointEscape(c: Point)
    ensures PyEscapePoint(c) == Escape(PointUnits(c))
  {
    if c < 0x10000 {
      EscapePair(c, c);
    } else {
      EscapePair(HighSurrogate(c), LowSurrogate(c));
    }
  }

  lemma {:induction false} PyTextPrintsTree(v: PyJson)
    ensures PyText(v) == Print(PyTree(v))
    decreases v
  {
    match v {
      case PyStr(s) => PyEscapeIsEscape(s);
      case PyList(items) => PyItemsPrint(v, items);
      case PyDict(members) =>
        PySortKeepsMembers(members);
        PyMembersPrint(v, SortBy(PyMemberKey, members));
      case _ =>
    }
  }

  lemma {:induction false} PyItemsPrint(owner: PyJson, items: seq<PyJson>)
    requires forall i :: 0 <= i < |items| ==> items[i] < owner
    ensures PyItemsText(owner, items) == PrintItems(seq(|items|, i requires 0 <= i < |items| => PyTree(items[i])))
    decreases owner, |items|
  {
    var trees := seq(|items|, i requires 0 <= i < |items| => PyTree(items[i]));
    if |items| > 0 {
      PyTextPrintsTree(items[0]);
      PyItemsPrint(owner, items[1..]);
      assert trees[1..] == seq(|items[1..]|, i requires 0 <= i < |items[1..]| => PyTree(items[1..][i]));
    }
  }

  lemma {:induction false} PyMembersPrint(owner: PyJson, members: seq<PyMember>)
    requires forall i :: 0 <= i < |members| ==> members[i].value < owner
    ensures PyMembersText(owner, members) == PrintEntries(PyEntries(owner, members))
    decreases owner, |members|
  {
    if |members| > 0 {
      PyTextPrintsTree(members[0].value);
      PyEscapeIsEscape(members[0].key);
      PyMembersPrint(owner, members[1..]);
      assert PyEntries(owner, members)[1..] == PyEntries(owner, members[1..]);
    }
  }

  // ---- Code points and code units -----------------------------------------------------------------

  predicate IsHigh(u: int) { 0xD800 <= u < 0xDC00 }
  predicate IsLow(u: int) { 0xDC00 <= u < 0xE000 }

  /** Decode UTF-16, joining surrogate pairs and keeping lone surrogates: json.loads. */
  function FromUtf16(us: Units): Points {
    if |us| == 0 then []
    else if |us| >= 2 && IsHigh(us[0]) && IsLow(us[1]) then
      [0x10000 + (us[0] - 0xD800) * 0x400 + (us[1] - 0xDC00)] + FromUtf16(us[2..])
    else [us[0]] + FromUtf16(us[1..])
  }

  /** A high surrogate code point directly followed by a low one. */
  ghost predicate HasSplitPair(s: Points) {
    exists i :: 0 <= i < |s| - 1 && IsHigh(s[i]) && IsLow(s[i + 1])
  }

  lemma SurrogatesOf(c: Point)
    requires c >= 0x10000
    ensures IsHigh(HighSurrogate(c)) && IsLow(LowSurrogate(c))
    ensures 0x10000 + (HighSurrogate(c) - 0xD800) * 0x400 + (LowSurrogate(c) - 0xDC00) == c
  {}

  /** Encoding and decoding a Python string is lossless exactly when it has no split pair. */
  lemma {:induction false} Utf16RoundTrip(s: Points)
    ensures |FromUtf16(Utf16(s))| <= |s|
    ensures FromUtf16(Utf16(s)) == s <==> !HasSplitPair(s)
    ensures HasSplitPair(s) ==> |FromUtf16(Utf16(s))| < |s|
  {
    if |s| > 0 {
      var c, t := s[0], s[1..];
      var us := Utf16(s);
      Utf16RoundTrip(t);
      assert s == [c] + t;
      assert HasSplitPair(s) <==> HasSplitPair(t) || (|t| > 0 && IsHigh(c) && IsLow(t[0])) by { SplitPairCons(c, t); }
      if c >= 0x10000 {
        SurrogatesOf(c);
        assert us[2..] == Utf16(t);
      } else if |t| > 0 && IsHigh(c) && IsLow(t[0]) {
        Utf16RoundTrip(t[1..]);
        assert us[1..] == Utf16(t) && Utf16(t)[1..] == Utf16(t[1..]);
        assert us[2..] == Utf16(t[1..]);
      } else {
        assert us[1..] == Utf16(t);
        if |t| > 0 && t[0] >= 0x10000 { SurrogatesOf(t[0]); }
      }
    }
  }

  lemma SplitPairCons(c: Point, t: Points)
    ensures HasSplitPair([c] + t) <==> HasSplitPair(t) || (|t| > 0 && IsHigh(c) && IsLow(t[0]))
  {
    var s := [c] + t;
    if HasSplitPair(t) {
      var i :| 0 <= i < |t| - 1 && IsHigh(t[i]) && IsLow(t[i + 1]);
      assert IsHigh(s[i + 1]) && IsLow(s[i + 1 + 1]);
    }
    if |t| > 0 && IsHigh(c) && IsLow(t[0]) {
      assert IsHigh(s[0]) && IsLow(s[0 + 1]);
    }
    if i :| 0 <= i < |s| - 1 && IsHigh(s[i]) && IsLow(s[i + 1]) {
      if i > 0 { assert IsHigh(t[i - 1]) && IsLow(t[i - 1 + 1]); }
    }
  }

  /** No surrogate code points. */
  ghost predicate WellFormed(s: Points) {
    forall i :: 0 <= i < |s| ==> !IsHigh(s[i]) && !IsLow(s[i])
  }

  // ---- The two key orders ----------------------------------------------------------------------------

  /** The code units of b at this place reach those of a, which starts with the greater code
      point: Python lists b first, JavaScript does not. */
  predicate Overtakes(b: Points, a: Points)
    requires |a| > 0 && |b| > 0
  {
    a[0] >= 0x10000 > b[0]
    && (b[0] > HighSurrogate(a[0])
        || (b[0] == HighSurrogate(a[0]) && |b| > 1
            && (LowSurrogate(a[0]) < b[1] < 0x10000
                || (b[1] == LowSurrogate(a[0]) && TextLeq(Utf16(a[1..]), Utf16(b[2..]))))))
  }

  /** Two keys that the languages do not list in one order, or that are one property in
      JavaScript. */
  predicate Clash(a: Points, b: Points) {
    |a| > 0 && |b| > 0 && if a[0] == b[0] then Clash(a[1..], b[1..]) else Overtakes(a, b) || Overtakes(b, a)
  }

  /** For keys without surrogates: at the first difference one has a supplementary character and
      the other one in U+E000 to U+FFFF. */
  predicate PlainClash(a: Points, b: Points) {
    |a| > 0 && |b| > 0
    && (if a[0] == b[0] then PlainClash(a[1..], b[1..])
        else (a[0] >= 0x10000 && 0xE000 <= b[0] < 0x10000) || (b[0] >= 0x10000 && 0xE000 <= a[0] < 0x10000))
  }

  lemma {:induction false} WellFormedClash(a: Points, b: Points)
    requires WellFormed(a) && WellFormed(b)
    ensures Clash(a, b) <==> PlainClash(a, b)
  {
    if |a| > 0 && |b| > 0 {
      if a[0] == b[0] { WellFormedClash(a[1..], b[1..]); }
      if a[0] >= 0x10000 { SurrogatesOf(a[0]); }
      if b[0] >= 0x10000 { SurrogatesOf(b[0]); }
    }
  }

  lemma TextLeqCons(x: int, y: int, a: Text, b: Text)
    ensures TextLeq([x] + a, [y] + b) <==> x < y || (x == y && TextLeq(a, b))
  {
    assert ([x] + a)[1..] == a && ([y] + b)[1..] == b;
  }

  lemma TextLeqPairs(x: int, p: int, y: int, q: int, a: Text, b: Text)
    ensures TextLeq([x, p] + a, [y, q] + b) <==> x < y || (x == y && (p < q || (p == q && TextLeq(a, b))))
  {
    TextLeqCons(x, y, [p] + a, [q] + b);
    TextLeqCons(p, q, a, b);
    assert [x, p] + a == [x] + ([p] + a) && [y, q] + b == [y] + ([q] + b);
  }

  lemma {:induction false} CommonPrefix(p: Text, a: Text, b: Text)
    ensures TextLeq(p + a, p + b) <==> TextLeq(a, b)
  {
    if |p| == 0 {
      assert p + a == a && p + b == b;
    } else {
      assert (p + a)[1..] == p[1..] + a && (p + b)[1..] == p[1..] + b;
      CommonPrefix(p[1..], a, b);
    }
  }

  lemma UnitsCons(s: Points)
    requires |s| > 0
    ensures Utf16(s) == if s[0] < 0x10000 then [s[0]] + Utf16(s[1..]) else [HighSurrogate(s[0]), LowSurrogate(s[0])] + Utf16(s[1..])
  {}

  /** Against a supplementary character the rest of the shorter character's key decides. */
  lemma PairAgainst(lo: int, a: Text, rest: Points)
    requires IsLow(lo)
    ensures TextLeq([lo] + a, Utf16(rest))
            <==> |rest| > 0 && (lo < rest[0] < 0x10000 || (rest[0] == lo && TextLeq(a, Utf16(rest[1..]))))
  {
    if |rest| > 0 {
      UnitsCons(rest);
      if rest[0] < 0x10000 {
        TextLeqCons(lo, rest[0], a, Utf16(rest[1..]));
      } else {
        SurrogatesOf(rest[0]);
        TextLeqCons(lo, HighSurrogate(rest[0]), a, [LowSurrogate(rest[0])] + Utf16(rest[1..]));
        assert [HighSurrogate(rest[0]), LowSurrogate(rest[0])] + Utf16(rest[1..])
            == [HighSurrogate(rest[0])] + ([LowSurrogate(rest[0])] + Utf16(rest[1..]));
      }
    }
  }

  lemma PairFirst(hi: int, lo: int, a: Text, d: Point, rest: Points)
    requires IsLow(lo)
    ensures TextLeq([hi, lo] + a, [d] + Utf16(rest))
            <==> hi < d || (hi == d && |rest| > 0 && (lo < rest[0] < 0x10000 || (rest[0] == lo && TextLeq(a, Utf16(rest[1..])))))
  {
    assert [hi, lo] + a == [hi] + ([lo] + a);
    TextLeqCons(hi, d, [lo] + a, Utf16(rest));
    PairAgainst(lo, a, rest);
  }

  lemma OvertakesUnfolds(b: Points, a: Points, rest: Points)
    requires |a| > 0 && |b| > 0 && a[0] >= 0x10000 > b[0] && rest == b[1..]
    ensures Overtakes(b, a)
            <==> var hi, lo := HighSurrogate(a[0]), LowSurrogate(a[0]);
                 hi < b[0] || (hi == b[0] && |rest| > 0 && (lo < rest[0] < 0x10000 || (rest[0] == lo && TextLeq(Utf16(a[1..]), Utf16(rest[1..])))))
  {
    if |rest| > 0 { assert rest[0] == b[1] && rest[1..] == b[2..]; }
  }

  lemma SupplementaryFirst(a: Points, b: Points)
    requires |a| > 0 && |b| > 0 && a[0] >= 0x10000 > b[0]
    ensures TextLeq(Utf16(a), Utf16(b)) <==> Overtakes(b, a)
  {
    SurrogatesOf(a[0]);
    UnitsCons(a);
    UnitsCons(b);
    PairFirst(HighSurrogate(a[0]), LowSurrogate(a[0]), Utf16(a[1..]), b[0], b[1..]);
    OvertakesUnfolds(b, a, b[1..]);
  }

  lemma SameKind(a: Points, b: Points)
    requires |a| > 0 && |b| > 0 && a[0] < b[0] && (a[0] >= 0x10000 <==> b[0] >= 0x10000)
    ensures TextLeq(Utf16(a), Utf16(b)) && !TextLeq(Utf16(b), Utf16(a))
  {
    UnitsCons(a);
    UnitsCons(b);
    if a[0] < 0x10000 {
      TextLeqCons(a[0], b[0], Utf16(a[1..]), Utf16(b[1..]));
      TextLeqCons(b[0], a[0], Utf16(b[1..]), Utf16(a[1..]));
    } else {
      SurrogatesOf(a[0]);
      SurrogatesOf(b[0]);
      TextLeqPairs(HighSurrogate(a[0]), LowSurrogate(a[0]), HighSurrogate(b[0]), LowSurrogate(b[0]), Utf16(a[1..]), Utf16(b[1..]));
      TextLeqPairs(HighSurrogate(b[0]), LowSurrogate(b[0]), HighSurrogate(a[0]), LowSurrogate(a[0]), Utf16(b[1..]), Utf16(a[1..]));
    }
  }

  /** Both languages put the two keys in the same order. */
  ghost predicate SameOrder(a: Points, b: Points) {
    (TextLeq(a, b) <==> TextLeq(Utf16(a), Utf16(b))) && (TextLeq(b, a) <==> TextLeq(Utf16(b), Utf16(a)))
  }

  lemma DifferentFirst(a: Points, b: Points)
    requires |a| > 0 && |b| > 0 && a[0] < b[0]
    ensures SameOrder(a, b) <==> !Clash(a, b)
  {
    if a[0] >= 0x10000 || b[0] < 0x10000 {
      SameKind(a, b);
    } else {
      SupplementaryFirst(b, a);
      TextTotal(Utf16(a), Utf16(b));
    }
  }

  /** Code-point order and code-unit order agree on two keys exactly when they do not clash. */
  lemma {:induction false} KeyOrders(a: Points, b: Points)
    ensures SameOrder(a, b) <==> !Clash(a, b)
  {
    if |a| == 0 || |b| == 0 {
      EmptyKeys(a, b);
    } else if a[0] == b[0] {
      KeyOrders(a[1..], b[1..]);
      CommonPrefix(PointUnits(a[0]), Utf16(a[1..]), Utf16(b[1..]));
      CommonPrefix(PointUnits(a[0]), Utf16(b[1..]), Utf16(a[1..]));
    } else if a[0] < b[0] {
      DifferentFirst(a, b);
    } else {
      DifferentFirst(b, a);
      assert Clash(a, b) <==> Clash(b, a);
    }
  }

  lemma EmptyKeys(a: Points, b: Points)
    requires |a| == 0 || |b| == 0
    ensures SameOrder(a, b)
  {
    if |a| > 0 { UnitsCons(a); }
    if |b| > 0 { UnitsCons(b); }
  }

  /** Different keys that are one property clash. */
  lemma OnePropertyClashes(a: Points, b: Points)
    requires a != b && Utf16(a) == Utf16(b)
    ensures Clash(a, b)
  {
    KeyOrders(a, b);
    TextTotal(a, b);
    TextTotal(Utf16(a), Utf16(b));
  }

  // ---- Parity of whole documents ----------------------------------------------------------------------

  /** Every dictionary inside has each key once. */
  ghost predicate PyProper(v: PyJson)
    decreases v
  {
    match v
    case PyList(items) => forall i :: 0 <= i < |items| ==> PyProper(items[i])
    case PyDict(members) => PyProperKeys(members) && forall i :: 0 <= i < |members| ==> PyProper(members[i].value)
    case _ => true
  }

  ghost predicate PyProperKeys(members: seq<PyMember>) {
    forall i, j :: 0 <= i < j < |members| ==> members[i].key != members[j].key
  }

  /** No two keys are one property in JavaScript. */
  ghost predicate KeysApart(members: seq<PyMember>) {
    forall i, j :: 0 <= i < j < |members| ==> Utf16(members[i].key) != Utf16(members[j].key)
  }

  /** No dictionary inside has two clashing keys. */
  ghost predicate ClashFree(v: PyJson)
    decreases v
  {
    match v
    case PyList(items) => forall i :: 0 <= i < |items| ==> ClashFree(items[i])
    case PyDict(members) => KeysClashFree(members) && forall i :: 0 <= i < |members| ==> ClashFree(members[i].value)
    case _ => true
  }

  ghost predicate KeysClashFree(members: seq<PyMember>) {
    forall i, j :: 0 <= i < |members| && 0 <= j < |members| ==> !Clash(members[i].key, members[j].key)
  }

  /** The integer keeps its digits on the way through the TypeScript side. */
  predicate IntAgrees(how: Arrival, n: int) {
    how.Parsed? ==> Shortest(Nearest(n)) == n
  }

  /** Every integer inside keeps its digits. */
  ghost predicate IntsAgree(how: Arrival, v: PyJson)
    decreases v
  {
    match v
    case PyInt(n) => IntAgrees(how, n)
    case PyList(items) => forall i :: 0 <= i < |items| ==> IntsAgree(how, items[i])
    case PyDict(members) => forall i :: 0 <= i < |members| ==> IntsAgree(how, members[i].value)
    case _ => true
  }

  /** Every integer inside that arrives as a number is below 1e21. */
  ghost predicate InRange(how: Arrival, v: PyJson)
    decreases v
  {
    match v
    case PyInt(n) => how.Parsed? ==> -LIMIT < Nearest(n) < LIMIT
    case PyList(items) => forall i :: 0 <= i < |items| ==> InRange(how, items[i])
    case PyDict(members) => forall i :: 0 <= i < |members| ==> InRange(how, members[i].value)
    case _ => true
  }

  lemma IntTrees(how: Arrival, n: int)
    requires how.Parsed? ==> -LIMIT < Nearest(n) < LIMIT
    ensures Canon(IntToJs(how, n)) == TInt(n) <==> IntAgrees(how, n)
    ensures -TWO53 < n < TWO53 ==> IntAgrees(how, n)
  {
    if -TWO53 < n < TWO53 { SafeIntegers(n); }
  }

  lemma SingleKey(a: Text, b: Text)
    ensures KeyLeq([a], [b]) <==> a == b || TextLeq(a, b)
  {
    assert [a][0] == a && [b][0] == b && [a][1..] == [] && [b][1..] == [];
  }

  lemma ToJsMembers(how: Arrival, members: seq<PyMember>)
    ensures ToJs(how, PyDict(members)) == JObject(Merged(Map(Js(how), members)))
  {
    var v := PyDict(members);
    assert seq(|members|, i requires 0 <= i < |members| => Member(Utf16(members[i].key), ToJs(how, members[i].value))) == Map(Js(how), members);
  }

  lemma {:induction false} ToJsEncodable(how: Arrival, v: PyJson)
    ensures Encodable(ToJs(how, v))
    decreases v
  {
    match v {
      case PyList(items) =>
        forall i | 0 <= i < |items| ensures Encodable(ToJs(how, items[i])) { ToJsEncodable(how, items[i]); }
      case PyDict(members) =>
        forall i | 0 <= i < |members| ensures Encodable(ToJs(how, members[i].value)) { ToJsEncodable(how, members[i].value); }
        MergedEncodable(how, members);
      case _ =>
    }
  }

  lemma MergedEncodable(how: Arrival, members: seq<PyMember>)
    requires forall i :: 0 <= i < |members| ==> Encodable(ToJs(how, members[i].value))
    ensures AllEncodable(Merged(Map(Js(how), members))) && Encodable(ToJs(how, PyDict(members)))
  {
    var js := Map(Js(how), members);
    ToJsMembers(how, members);
    MergedFacts(js);
    forall i | 0 <= i < |Merged(js)| ensures Encodable(Merged(js)[i].value) {
      assert Merged(js)[i] in js;
      var k :| 0 <= k < |js| && js[k] == Merged(js)[i];
    }
  }

  lemma ApartIsProper(how: Arrival, members: seq<PyMember>)
    ensures KeysApart(members) <==> ProperMembers(Map(Js(how), members))
  {
    var js := Map(Js(how), members);
    assert forall i :: 0 <= i < |members| ==> js[i].key == Utf16(members[i].key);
  }

  /** Keys that do not clash stay apart. */
  lemma ClashFreeApart(members: seq<PyMember>)
    requires PyProperKeys(members) && KeysClashFree(members)
    ensures KeysApart(members)
  {
    forall i, j | 0 <= i < j < |members| ensures Utf16(members[i].key) != Utf16(members[j].key) {
      if Utf16(members[i].key) == Utf16(members[j].key) { OnePropertyClashes(members[i].key, members[j].key); }
    }
  }

  /** Keys that stay apart are properties in the order of the dictionary. */
  lemma ApartMembers(how: Arrival, members: seq<PyMember>)
    requires KeysApart(members)
    ensures ToJs(how, PyDict(members)) == JObject(Map(Js(how), members))
  {
    ToJsMembers(how, members);
    ApartIsProper(how, members);
    MergedSize(Map(Js(how), members));
  }

  lemma JsKeysDistinguish(how: Arrival, members: seq<PyMember>)
    requires KeysApart(members)
    ensures KeysDistinguish(MemberKey, Map(Js(how), members))
  {
    var js := Map(Js(how), members);
    ApartIsProper(how, members);
    forall x, y | x in js && y in js && MemberKey(x) == MemberKey(y) ensures x == y {
      assert MemberKey(x)[0] == x.key && MemberKey(y)[0] == y.key;
      var i :| 0 <= i < |js| && js[i] == x;
      var j :| 0 <= j < |js| && js[j] == y;
    }
  }

  /** Without clashes the two sorts visit the members in the same order. */
  lemma SortsAgree(how: Arrival, members: seq<PyMember>)
    requires PyProperKeys(members) && KeysClashFree(members)
    ensures Map(Js(how), SortBy(PyMemberKey, members)) == SortBy(MemberKey, Map(Js(how), members))
  {
    forall x, y | x in members && y in members && KeyLeq(PyMemberKey(x), PyMemberKey(y))
      ensures KeyLeq(MemberKey(Js(how)(x)), MemberKey(Js(how)(y)))
    {
      var i :| 0 <= i < |members| && members[i] == x;
      var j :| 0 <= j < |members| && members[j] == y;
      SingleKey(x.key, y.key);
      SingleKey(Utf16(x.key), Utf16(y.key));
      KeyOrders(x.key, y.key);
    }
    ClashFreeApart(members);
    JsKeysDistinguish(how, members);
    SortCommutes(PyMemberKey, MemberKey, Js(how), members);
  }

  lemma ClashSymmetric(a: Points, b: Points)
    ensures Clash(a, b) <==> Clash(b, a)
  {
    if |a| > 0 && |b| > 0 && a[0] == b[0] { ClashSymmetric(a[1..], b[1..]); }
  }

  /** If the trees are equal, no key was merged into another. */
  lemma EqualTreesApart(how: Arrival, members: seq<PyMember>)
    requires Canon(ToJs(how, PyDict(members))) == PyTree(PyDict(members))
    ensures KeysApart(members)
  {
    var js := Map(Js(how), members);
    ToJsMembers(how, members);
    MergedSize(js);
    ApartIsProper(how, members);
    assert |PyTree(PyDict(members)).entries| == |members|;
    assert |Canon(ToJs(how, PyDict(members))).entries| == |Merged(js)|;
  }

  lemma EqualTreesEqualKeyLists(how: Arrival, members: seq<PyMember>)
    requires KeysApart(members) && Canon(ToJs(how, PyDict(members))) == PyTree(PyDict(members))
    ensures var py, js := SortBy(PyMemberKey, members), SortBy(MemberKey, Map(Js(how), members));
            |js| == |py| && forall p :: 0 <= p < |py| ==> js[p].key == Utf16(py[p].key)
  {
    var v := PyDict(members);
    var py, js := SortBy(PyMemberKey, members), SortBy(MemberKey, Map(Js(how), members));
    ApartMembers(how, members);
    forall p | 0 <= p < |py| ensures js[p].key == Utf16(py[p].key) {
      assert PyTree(v).entries[p].key == Utf16(py[p].key);
      assert Canon(ToJs(how, v)).entries[p].key == js[p].key;
    }
  }

  /** If the trees list the keys in the same order, no two keys clash. */
  lemma EqualTreesNoClash(how: Arrival, members: seq<PyMember>, i: nat, j: nat)
    requires i < |members| && j < |members|
    requires Canon(ToJs(how, PyDict(members))) == PyTree(PyDict(members))
    ensures !Clash(members[i].key, members[j].key)
  {
    EqualTreesApart(how, members);
    EqualTreesEqualKeyLists(how, members);
    SortFacts(PyMemberKey, members);
    SortFacts(MemberKey, Map(Js(how), members));
    var p := PySortedPlace(members, i);
    var q := PySortedPlace(members, j);
    assert Utf16(members[i].key) == Utf16(members[j].key) ==> i == j;
    if members[i].key == members[j].key {
      NoSelfClash(members[i].key);
    } else {
      SortedNoClash(SortBy(PyMemberKey, members), SortBy(MemberKey, Map(Js(how), members)), p, q);
    }
  }

  lemma PySortedPlace(members: seq<PyMember>, i: nat) returns (p: nat)
    requires i < |members|
    ensures p < |SortBy(PyMemberKey, members)| && SortBy(PyMemberKey, members)[p] == members[i]
  {
    SortMembers(PyMemberKey, members);
    assert members[i] in SortBy(PyMemberKey, members);
    p :| 0 <= p < |SortBy(PyMemberKey, members)| && SortBy(PyMemberKey, members)[p] == members[i];
  }

  lemma SortedNoClash(py: seq<PyMember>, js: seq<Member>, p: nat, q: nat)
    requires SortedBy(PyMemberKey, py) && SortedBy(MemberKey, js) && |js| == |py| && p < |py| && q < |py|
    requires js[p].key == Utf16(py[p].key) && js[q].key == Utf16(py[q].key) && js[p].key != js[q].key
    ensures !Clash(py[p].key, py[q].key)
  {
    ClashSymmetric(py[p].key, py[q].key);
    if p < q {
      SortedBothWays(py, js, p, q);
    } else if q < p {
      SortedBothWays(py, js, q, p);
    }
  }

  lemma NoSelfClash(a: Points)
    ensures !Clash(a, a)
  {
    if |a| > 0 { NoSelfClash(a[1..]); }
  }

  lemma BothBefore(a: Points, b: Points)
    requires TextLeq(a, b) && TextLeq(Utf16(a), Utf16(b)) && Utf16(a) != Utf16(b)
    ensures SameOrder(a, b)
  {
    TextTotal(a, b);
    TextTotal(Utf16(a), Utf16(b));
  }

  lemma SortedBothWays(py: seq<PyMember>, js: seq<Member>, p: nat, q: nat)
    requires SortedBy(PyMemberKey, py) && SortedBy(MemberKey, js) && |py| == |js| && p < q < |py|
    requires js[p].key == Utf16(py[p].key) && js[q].key == Utf16(py[q].key) && js[p].key != js[q].key
    ensures !Clash(py[p].key, py[q].key)
  {
    SingleKey(py[p].key, py[q].key);
    SingleKey(js[p].key, js[q].key);
    TextTotal(py[p].key, py[q].key);
    TextTotal(js[p].key, js[q].key);
    assert KeyLeq(PyMemberKey(py[p]), PyMemberKey(py[q]));
    assert KeyLeq(MemberKey(js[p]), MemberKey(js[q]));
    KeyOrders(py[p].key, py[q].key);
    BothBefore(py[p].key, py[q].key);
  }

  /** What agreement of the two sides comes down to. */
  ghost predicate Agrees(how: Arrival, v: PyJson) {
    ClashFree(v) && IntsAgree(how, v)
  }

  /** The two canonical trees are equal exactly for documents that agree. */
  lemma {:induction false} TreesAgree(how: Arrival, v: PyJson)
    requires PyProper(v) && InRange(how, v)
    ensures Canon(ToJs(how, v)) == PyTree(v) <==> Agrees(how, v)
    decreases v
  {
    match v {
      case PyInt(n) => IntTrees(how, n);
      case PyList(items) =>
        forall i | 0 <= i < |items| ensures Canon(ToJs(how, items[i])) == PyTree(items[i]) <==> Agrees(how, items[i]) {
          TreesAgree(how, items[i]);
        }
        ListTrees(how, items);
        AgreesInList(how, items);
      case PyDict(members) =>
        forall i | 0 <= i < |members|
          ensures Canon(ToJs(how, members[i].value)) == PyTree(members[i].value) <==> Agrees(how, members[i].value)
        {
          TreesAgree(how, members[i].value);
        }
        DictAgrees(how, members);
        AgreesInDict(how, members);
      case _ =>
    }
  }

  lemma AgreesInList(how: Arrival, items: seq<PyJson>)
    ensures Agrees(how, PyList(items)) <==> forall i :: 0 <= i < |items| ==> Agrees(how, items[i])
  {}

  lemma AgreesInDict(how: Arrival, members: seq<PyMember>)
    ensures Agrees(how, PyDict(members)) <==> KeysClashFree(members) && forall i :: 0 <= i < |members| ==> Agrees(how, members[i].value)
  {}

  lemma DictAgrees(how: Arrival, members: seq<PyMember>)
    requires PyProperKeys(members)
    ensures Canon(ToJs(how, PyDict(members))) == PyTree(PyDict(members))
            <==> KeysClashFree(members) && forall i :: 0 <= i < |members| ==> Canon(ToJs(how, members[i].value)) == PyTree(members[i].value)
  {
    if Canon(ToJs(how, PyDict(members))) == PyTree(PyDict(members)) {
      forall i, j | 0 <= i < |members| && 0 <= j < |members| ensures !Clash(members[i].key, members[j].key) {
        EqualTreesNoClash(how, members, i, j);
      }
    }
    if KeysClashFree(members) {
      DictTrees(how, members);
    }
  }

  lemma ListTrees(how: Arrival, items: seq<PyJson>)
    ensures Canon(ToJs(how, PyList(items))) == PyTree(PyList(items))
            <==> forall i :: 0 <= i < |items| ==> Canon(ToJs(how, items[i])) == PyTree(items[i])
  {
    var v := PyList(items);
    var a, b := Canon(ToJs(how, v)).items, PyTree(v).items;
    assert |a| == |b| == |items|;
    assert forall i :: 0 <= i < |items| ==> a[i] == Canon(ToJs(how, items[i])) && b[i] == PyTree(items[i]);
  }

  lemma DictEntries(how: Arrival, members: seq<PyMember>)
    requires PyProperKeys(members) && KeysClashFree(members)
    ensures var py := SortBy(PyMemberKey, members);
            var a, b := Canon(ToJs(how, PyDict(members))), PyTree(PyDict(members));
            && a.TObject? && b.TObject? && |a.entries| == |b.entries| == |py|
            && forall p :: 0 <= p < |py| ==>
                 && a.entries[p] == Entry(Utf16(py[p].key), Canon(ToJs(how, py[p].value)))
                 && b.entries[p] == Entry(Utf16(py[p].key), PyTree(py[p].value))
  {
    var py, js := SortBy(PyMemberKey, members), SortBy(MemberKey, Map(Js(how), members));
    ClashFreeApart(members);
    ApartMembers(how, members);
    SortsAgree(how, members);
    assert forall p :: 0 <= p < |py| ==> js[p] == Js(how)(py[p]);
  }

  lemma DictTrees(how: Arrival, members: seq<PyMember>)
    requires PyProperKeys(members) && KeysClashFree(members)
    ensures Canon(ToJs(how, PyDict(members))) == PyTree(PyDict(members))
            <==> forall i :: 0 <= i < |members| ==> Canon(ToJs(how, members[i].value)) == PyTree(members[i].value)
  {
    var py := SortBy(PyMemberKey, members);
    var a, b := Canon(ToJs(how, PyDict(members))), PyTree(PyDict(members));
    DictEntries(how, members);
    SortMembers(PyMemberKey, members);
    if a == b {
      forall i | 0 <= i < |members| ensures Canon(ToJs(how, members[i].value)) == PyTree(members[i].value) {
        assert members[i] in py;
        var p :| 0 <= p < |py| && py[p] == members[i];
        assert a.entries[p] == b.entries[p];
      }
    }
    if forall i :: 0 <= i < |members| ==> Canon(ToJs(how, members[i].value)) == PyTree(members[i].value) {
      forall p | 0 <= p < |py| ensures a.entries[p] == b.entries[p] {
        assert py[p] in py;
        var i :| 0 <= i < |members| && members[i] == py[p];
      }
      assert a.entries == b.entries;
    }
  }

  /** Cross-language parity, with its exact condition: for every Python document, lone surrogates
      included, the TypeScript text is the Python text if and only if no dictionary has two
      clashing keys, and every integer that arrived as a number is the shortest decimal of that
      number. */
  lemma ParityIffAgrees(how: Arrival, v: PyJson)
    requires PyProper(v) && InRange(how, v)
    ensures Encode(ToJs(how, v)) == Some(PyText(v)) <==> Agrees(how, v)
  {
    ToJsEncodable(how, v);
    EncodePrintsCanon(ToJs(how, v));
    PyTextPrintsTree(v);
    DecodePrint(Canon(ToJs(how, v)));
    DecodePrint(PyTree(v));
    TreesAgree(how, v);
  }

  /** When unsafe integers are handed over as bigints only the keys matter. */
  lemma ParityIffClashFree(v: PyJson)
    requires PyProper(v)
    ensures Encode(ToJs(Exact, v)) == Some(PyText(v)) <==> ClashFree(v)
  {
    ExactIntsAgree(v);
    ParityIffAgrees(Exact, v);
  }

  lemma {:induction false} ExactIntsAgree(v: PyJson)
    ensures IntsAgree(Exact, v) && InRange(Exact, v)
    decreases v
  {
    match v {
      case PyList(items) => forall i | 0 <= i < |items| ensures IntsAgree(Exact, items[i]) && InRange(Exact, items[i]) { ExactIntsAgree(items[i]); }
      case PyDict(members) =>
        forall i | 0 <= i < |members| ensures IntsAgree(Exact, members[i].value) && InRange(Exact, members[i].value) {
          ExactIntsAgree(members[i].value);
        }
      case _ =>
    }
  }

  /** 2^60 read by JSON.parse prints other digits than in Python. */
  lemma ParsedIntegerCounterexample()
    ensures InRange(Parsed, PyInt(TWO60)) && Encode(ToJs(Parsed, PyInt(TWO60))) != Some(PyText(PyInt(TWO60)))
  {
    TwoToThe60();
    ParityIffAgrees(Parsed, PyInt(TWO60));
  }

  ghost predicate BmpKeys(v: PyJson)
    decreases v
  {
    match v
    case PyList(items) => forall i :: 0 <= i < |items| ==> BmpKeys(items[i])
    case PyDict(members) =>
      forall i :: 0 <= i < |members| ==>
        BmpKeys(members[i].value) && forall k :: 0 <= k < |members[i].key| ==> members[i].key[k] < 0x10000
    case _ => true
  }

  lemma {:induction false} BmpNoClash(a: Points, b: Points)
    requires forall k :: 0 <= k < |a| ==> a[k] < 0x10000
    requires forall k :: 0 <= k < |b| ==> b[k] < 0x10000
    ensures !Clash(a, b)
  {
    if |a| > 0 && |b| > 0 { BmpNoClash(a[1..], b[1..]); }
  }

  /** The documented case: keys within the basic multilingual plane. */
  lemma {:induction false} BmpKeysAreClashFree(v: PyJson)
    requires BmpKeys(v)
    ensures ClashFree(v)
    decreases v
  {
    match v {
      case PyList(items) =>
        forall i | 0 <= i < |items| ensures ClashFree(items[i]) { BmpKeysAreClashFree(items[i]); }
      case PyDict(members) =>
        forall i | 0 <= i < |members| ensures ClashFree(members[i].value) { BmpKeysAreClashFree(members[i].value); }
        forall i, j | 0 <= i < |members| && 0 <= j < |members| ensures !Clash(members[i].key, members[j].key) {
          BmpNoClash(members[i].key, members[j].key);
        }
      case _ =>
    }
  }

  lemma TwoKeysDiffer(a: Points, b: Points)
    requires a != b && Clash(a, b)
    ensures var v := PyDict([PyMember(a, PyNone), PyMember(b, PyNone)]);
            PyProper(v) && Encode(ToJs(Exact, v)) != Some(PyText(v))
  {
    var members := [PyMember(a, PyNone), PyMember(b, PyNone)];
    assert members[0].key == a && members[1].key == b;
    ParityIffClashFree(PyDict(members));
  }

  /** A document on which the two SDKs differ: the keys U+E000 and U+10000. */
  lemma ParityCounterexample()
    ensures var v := PyDict([PyMember([0xE000], PyNone), PyMember([0x10000], PyNone)]);
            PyProper(v) && Encode(ToJs(Exact, v)) != Some(PyText(v))
  {
    assert [0xE000][0] != [0x10000][0];
    TwoKeysDiffer([0xE000], [0x10000]);
  }

  /** Two more, with surrogate code points: a low surrogate sorts behind U+10000 in JavaScript
      alone, and the two surrogates of U+10000 are the same JavaScript key as U+10000. */
  lemma SurrogateKeysDiffer()
    ensures var v := PyDict([PyMember([0xDC00], PyNone), PyMember([0x10000], PyNone)]);
            PyProper(v) && Encode(ToJs(Exact, v)) != Some(PyText(v))
    ensures var v := PyDict([PyMember([0xD800, 0xDC00], PyNone), PyMember([0x10000], PyNone)]);
            PyProper(v) && Encode(ToJs(Exact, v)) != Some(PyText(v))
    ensures Utf16([0xD800, 0xDC00]) == Utf16([0x10000])
  {
    assert [0xDC00][0] != [0x10000][0];
    TwoKeysDiffer([0xDC00], [0x10000]);
    JoinedKey();
    OnePropertyClashes([0xD800, 0xDC00], [0x10000]);
    TwoKeysDiffer([0xD800, 0xDC00], [0x10000]);
  }

  lemma JoinedKey()
    ensures Utf16([0xD800, 0xDC00]) == Utf16([0x10000]) && [0xD800, 0xDC00] != [0x10000]
  {
    var pair, one: Points := [0xD800, 0xDC00], [0x10000];
    UnitsCons(pair);
    UnitsCons(pair[1..]);
    UnitsCons(one);
    assert pair[1..][1..] == [] && one[1..] == [];
    assert |pair| != |one|;
  }
}
