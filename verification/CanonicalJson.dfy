/** The TypeScript canonical-JSON printer: what it prints, a decoder for its output, and
    exactly which values share a text. */
module CanonicalJson {
  import opened Sorting
  import opened Wrappers
  import opened Decimal
  import opened Doubles

  /** UTF-16 code units, the characters of a JavaScript string. */
  type Unit = u: int | 0 <= u < 0x10000
  type Units = seq<Unit>

  const LIMIT := 1_000_000_000_000_000_000_000

  /** An integral JavaScript number below 1e21 in magnitude. */
  type Whole = n: int | IsDouble(n) && -LIMIT < n < LIMIT
  datatype Number = NonFinite | Fractional | NegativeZero | Integral(n: Whole)

  datatype Member = Member(key: Units, value: Json)

  datatype Json =
    | JNull
    | JUndefined
    | JBool(b: bool)
    | JBigInt(i: int)
    | JNumber(x: Number)
    | JString(s: Units)
    | JArray(items: seq<Json>)
    | JObject(members: seq<Member>)  // own properties in insertion order

  // ---- Strings ------------------------------------------------------------------------

  function HexDigit(d: nat): (c: char)
    requires d < 16
  {
    "0123456789abcdef"[d]
  }

  function Hex4(u: Unit): (s: string)
    ensures |s| == 4
  {
    [HexDigit(u / 4096), HexDigit(u / 256 % 16), HexDigit(u / 16 % 16), HexDigit(u % 16)]
  }

  function EscapeUnit(u: Unit): (s: string)
    ensures |s| > 0
  {
    if u == 0x22 then "\\\""
    else if u == 0x5c then "\\\\"
    else if u == 0x08 then "\\b"
    else if u == 0x0c then "\\f"
    else if u == 0x0a then "\\n"
    else if u == 0x0d then "\\r"
    else if u == 0x09 then "\\t"
    else if u < 0x20 || u > 0x7e then "\\u" + Hex4(u)
    else [u as char]
  }

  function Escape(us: Units): string {
    if |us| == 0 then "" else EscapeUnit(us[0]) + Escape(us[1..])
  }

  function Quote(us: Units): string {
    "\"" + Escape(us) + "\""
  }

  lemma {:induction false} EscapeAppend(a: Units, b: Units)
    ensures Escape(a + b) == Escape(a) + Escape(b)
  {
    if |a| == 0 {
      assert a + b == b;
    } else {
      assert (a + b)[1..] == a[1..] + b;
      EscapeAppend(a[1..], b);
    }
  }

  lemma EscapeSnoc(us: Units, u: Unit, out: string, piece: string)
    requires out == "\"" + Escape(us) && piece == EscapeUnit(u)
    ensures out + piece == "\"" + Escape(us + [u])
  {
    EscapeAppend(us, [u]);
    EscapeOne(u);
  }

  lemma EscapeOne(u: Unit)
    ensures Escape([u]) == EscapeUnit(u)
  {
    assert [u][1..] == [] && Escape([]) == "";
    assert EscapeUnit(u) + "" == EscapeUnit(u);
  }

  method EncodeString(value: Units) returns (out: string)
    ensures out == Quote(value)
  {
    out := "\"";
    for i := 0 to |value|
      invariant out == "\"" + Escape(value[..i])
    {
      var code := value[i];
      var piece;
      match code {
        case 0x22 => piece := "\\\"";
        case 0x5c => piece := "\\\\";
        case 0x08 => piece := "\\b";
        case 0x0c => piece := "\\f";
        case 0x0a => piece := "\\n";
        case 0x0d => piece := "\\r";
        case 0x09 => piece := "\\t";
        case _ => piece := if code < 0x20 || code > 0x7e then "\\u" + Hex4(code) else [code as char];
      }
      EscapeSnoc(value[..i], code, out, piece);
      assert value[..i + 1] == value[..i] + [code];
      out := out + piece;
    }
    assert value[..|value|] == value;
    out := out + "\"";
  }

  // ---- The printer -----------------------------------------------------------------------

  function MemberKey(m: Member): Key { [m.key] }

  /** No number inside is non-finite or fractional. */
  ghost predicate Encodable(v: Json) {
    match v
    case JNumber(x) => x.NegativeZero? || x.Integral?
    case JArray(items) => forall i :: 0 <= i < |items| ==> Encodable(items[i])
    case JObject(members) => forall i :: 0 <= i < |members| ==> Encodable(members[i].value)
    case _ => true
  }

  function NumberText(x: Number): Option<string> {
    match x
    case NonFinite => None
    case Fractional => None
    case NegativeZero => Some("0")
    case Integral(n) => Some(IntText(Shortest(n)))
  }

  lemma SortKeepsMembers(members: seq<Member>)
    ensures forall i :: 0 <= i < |SortBy(MemberKey, members)| ==> SortBy(MemberKey, members)[i] in members
  {
    SortMembers(MemberKey, members);
  }

  /** encode(): None is the thrown error. */
  function Encode(v: Json): Option<string>
    decreases v
  {
    match v
    case JNull => Some("null")
    case JUndefined => Some("null")
    case JBool(b) => Some(if b then "true" else "false")
    case JBigInt(n) => Some(IntText(n))
    case JNumber(x) => NumberText(x)
    case JString(s) => Some(Quote(s))
    case JArray(items) =>
      (match EncodeItems(v, items)
       case None => None
       case Some(t) => Some("[" + t + "]"))
    case JObject(members) =>
      SortKeepsMembers(members);
      (match EncodeMembers(v, SortBy(MemberKey, members))
       case None => None
       case Some(t) => Some("{" + t + "}"))
  }

  function EncodeItems(owner: Json, items: seq<Json>): Option<string>
    requires forall i :: 0 <= i < |items| ==> items[i] < owner
    decreases owner, |items|
  {
    if |items| == 0 then Some("")
    else
      match (Encode(items[0]), EncodeItems(owner, items[1..]))
      case (Some(h), Some(t)) => Some(if |items| == 1 then h else h + "," + t)
      case _ => None
  }

  function EncodeMembers(owner: Json, members: seq<Member>): Option<string>
    requires forall i :: 0 <= i < |members| ==> members[i].value < owner
    decreases owner, |members|
  {
    if |members| == 0 then Some("")
    else
      match (Encode(members[0].value), EncodeMembers(owner, members[1..]))
      case (Some(h), Some(t)) =>
        Some(Quote(members[0].key) + ":" + (if |members| == 1 then h else h + "," + t))
      case _ => None
  }

  // ---- Canonical trees ---------------------------------------------------------------------

  datatype Entry = Entry(key: Units, value: Tree)

  /** JSON values without incidental variation: what a canonical text denotes. */
  datatype Tree = TNull | TBool(b: bool) | TInt(n: int) | TString(s: Units) | TArray(items: seq<Tree>) | TObject(entries: seq<Entry>)

  function NumberValue(x: Number): int {
    if x.Integral? then x.n else 0
  }

  /** The decimal that an integral number prints. */
  function DecimalOf(x: Number): int {
    if x.Integral? then Shortest(x.n) else 0
  }

  /** Forget undefined, the number representations and the insertion order of keys. */
  function Canon(v: Json): Tree
    decreases v
  {
    match v
    case JNull => TNull
    case JUndefined => TNull
    case JBool(b) => TBool(b)
    case JBigInt(n) => TInt(n)
    case JNumber(x) => TInt(DecimalOf(x))
    case JString(s) => TString(s)
    case JArray(items) => TArray(CanonItems(v, items))
    case JObject(members) =>
      SortKeepsMembers(members);
      TObject(CanonMembers(v, SortBy(MemberKey, members)))
  }

  function CanonItems(owner: Json, items: seq<Json>): (r: seq<Tree>)
    requires forall i :: 0 <= i < |items| ==> items[i] < owner
    ensures |r| == |items| && forall i :: 0 <= i < |items| ==> r[i] == Canon(items[i])
    decreases owner, |items|
  {
    if |items| == 0 then [] else [Canon(items[0])] + CanonItems(owner, items[1..])
  }

  function CanonMembers(owner: Json, members: seq<Member>): (r: seq<Entry>)
    requires forall i :: 0 <= i < |members| ==> members[i].value < owner
    ensures |r| == |members|
    ensures forall i :: 0 <= i < |members| ==> r[i] == Entry(members[i].key, Canon(members[i].value))
    decreases owner, |members|
  {
    if |members| == 0 then []
    else [Entry(members[0].key, Canon(members[0].value))] + CanonMembers(owner, members[1..])
  }

  function Print(t: Tree): string
    decreases t
  {
    match t
    case TNull => "null"
    case TBool(b) => if b then "true" else "false"
    case TInt(n) => IntText(n)
    case TString(s) => Quote(s)
    case TArray(items) => "[" + PrintItems(items) + "]"
    case TObject(entries) => "{" + PrintEntries(entries) + "}"
  }

  function PrintItems(items: seq<Tree>): string
    decreases items
  {
    if |items| == 0 then ""
    else if |items| == 1 then Print(items[0])
    else Print(items[0]) + "," + PrintItems(items[1..])
  }

  function PrintEntries(entries: seq<Entry>): string
    decreases entries
  {
    if |entries| == 0 then ""
    else
      Quote(entries[0].key) + ":" +
      (if |entries| == 1 then Print(entries[0].value) else Print(entries[0].value) + "," + PrintEntries(entries[1..]))
  }

  /** The printer throws exactly on a non-finite or fractional number inside, and otherwise
      prints the canonical tree. */
  lemma {:induction false} EncodePrintsCanon(v: Json)
    ensures Encode(v) == if Encodable(v) then Some(Print(Canon(v))) else None
    decreases v
  {
    match v {
      case JArray(items) => ItemsPrintCanon(v, items);
      case JObject(members) =>
        SortKeepsMembers(members);
        MembersPrintCanon(v, SortBy(MemberKey, members));
        SortKeepsEncodable(members);
      case _ =>
    }
  }

  ghost predicate AllEncodable(members: seq<Member>) {
    forall i :: 0 <= i < |members| ==> Encodable(members[i].value)
  }

  lemma SortKeepsEncodable(members: seq<Member>)
    ensures AllEncodable(SortBy(MemberKey, members)) <==> AllEncodable(members)
  {
    SortKeepsMembers(members);
    SortMembers(MemberKey, members);
    var sorted := SortBy(MemberKey, members);
    if AllEncodable(sorted) {
      forall i | 0 <= i < |members| ensures Encodable(members[i].value) {
        assert members[i] in sorted;
        var j :| 0 <= j < |sorted| && sorted[j] == members[i];
      }
    }
    if AllEncodable(members) {
      forall i | 0 <= i < |sorted| ensures Encodable(sorted[i].value) {
        var j :| 0 <= j < |members| && sorted[i] == members[j];
      }
    }
  }

  lemma {:induction false} ItemsPrintCanon(owner: Json, items: seq<Json>)
    requires forall i :: 0 <= i < |items| ==> items[i] < owner
    ensures EncodeItems(owner, items)
            == if forall i :: 0 <= i < |items| ==> Encodable(items[i]) then Some(PrintItems(CanonItems(owner, items))) else None
    decreases owner, |items|
  {
    if |items| > 0 {
      EncodePrintsCanon(items[0]);
      ItemsPrintCanon(owner, items[1..]);
      assert CanonItems(owner, items)[1..] == CanonItems(owner, items[1..]);
      assert (forall i :: 0 <= i < |items| ==> Encodable(items[i]))
          == (Encodable(items[0]) && forall i :: 0 <= i < |items[1..]| ==> Encodable(items[1..][i])) by {
        assert forall i :: 1 <= i < |items| ==> items[i] == items[1..][i - 1];
      }
    }
  }

  lemma {:induction false} MembersPrintCanon(owner: Json, members: seq<Member>)
    requires forall i :: 0 <= i < |members| ==> members[i].value < owner
    ensures EncodeMembers(owner, members)
            == if forall i :: 0 <= i < |members| ==> Encodable(members[i].value)
               then Some(PrintEntries(CanonMembers(owner, members))) else None
    decreases owner, |members|
  {
    if |members| > 0 {
      EncodePrintsCanon(members[0].value);
      MembersPrintCanon(owner, members[1..]);
      assert CanonMembers(owner, members)[1..] == CanonMembers(owner, members[1..]);
      assert (forall i :: 0 <= i < |members| ==> Encodable(members[i].value))
          == (Encodable(members[0].value) && forall i :: 0 <= i < |members[1..]| ==> Encodable(members[1..][i].value)) by {
        assert forall i :: 1 <= i < |members| ==> members[i] == members[1..][i - 1];
      }
    }
  }

  // ---- A decoder for canonical text -----------------------------------------------------------

  function HexValue(c: char): Option<nat> {
    if '0' <= c <= '9' then Some(c as int - '0' as int)
    else if 'a' <= c <= 'f' then Some(c as int - 'a' as int + 10)
    else None
  }

  function ParseHex4(s: string): Option<Unit>
    requires |s| >= 4
  {
    match (HexValue(s[0]), HexValue(s[1]), HexValue(s[2]), HexValue(s[3]))
    case (Some(a), Some(b), Some(c), Some(d)) =>
      var n := a * 4096 + b * 256 + c * 16 + d;
      if n < 0x10000 then Some(n) else None
    case _ => None
  }

  /** Read one possibly escaped character. */
  function ParseUnit(s: string): (r: Option<(Unit, string)>)
    ensures r.Some? ==> |r.value.1| < |s|
  {
    if |s| == 0 then None
    else if s[0] == '\\' then
      if |s| == 1 then None
      else if s[1] == '"' then Some((0x22, s[2..]))
      else if s[1] == '\\' then Some((0x5c, s[2..]))
      else if s[1] == 'b' then Some((0x08, s[2..]))
      else if s[1] == 'f' then Some((0x0c, s[2..]))
      else if s[1] == 'n' then Some((0x0a, s[2..]))
      else if s[1] == 'r' then Some((0x0d, s[2..]))
      else if s[1] == 't' then Some((0x09, s[2..]))
      else if s[1] == 'u' && |s| >= 6 && ParseHex4(s[2..]).Some? then Some((ParseHex4(s[2..]).value, s[6..]))
      else None
    else if 0x20 <= s[0] as int <= 0x7e && s[0] != '"' then Some((s[0] as int, s[1..]))
    else None
  }

  /** Read characters up to and including the closing quote. */
  function ParseChars(s: string): (r: Option<(Units, string)>)
    ensures r.Some? ==> |r.value.1| < |s|
  {
    if |s| > 0 && s[0] == '"' then Some(([], s[1..]))
    else
      match ParseUnit(s)
      case None => None
      case Some((u, rest)) =>
        match ParseChars(rest)
        case None => None
        case Some((us, rest')) => Some(([u] + us, rest'))
  }

  function StartsWith(s: string, p: string): bool {
    |s| >= |p| && s[..|p|] == p
  }

  function ParseValue(s: string): (r: Option<(Tree, string)>)
    ensures r.Some? ==> |r.value.1| < |s|
    decreases |s|, 0
  {
    if |s| == 0 then None
    else if StartsWith(s, "null") then Some((TNull, s[4..]))
    else if StartsWith(s, "true") then Some((TBool(true), s[4..]))
    else if StartsWith(s, "false") then Some((TBool(false), s[5..]))
    else if s[0] == '"' then
      match ParseChars(s[1..])
      case None => None
      case Some((us, rest)) => Some((TString(us), rest))
    else if s[0] == '[' then
      if |s| > 1 && s[1] == ']' then Some((TArray([]), s[2..]))
      else
        match ParseItems(s[1..])
        case None => None
        case Some((items, rest)) => Some((TArray(items), rest))
    else if s[0] == '{' then
      if |s| > 1 && s[1] == '}' then Some((TObject([]), s[2..]))
      else
        match ParseEntries(s[1..])
        case None => None
        case Some((entries, rest)) => Some((TObject(entries), rest))
    else
      match ParseInt(s)
      case None => None
      case Some((n, rest)) => Some((TInt(n), rest))
  }

  function ParseItems(s: string): (r: Option<(seq<Tree>, string)>)
    ensures r.Some? ==> |r.value.1| < |s|
    decreases |s|, 1
  {
    if |s| == 0 then None
    else
      match ParseValue(s)
      case None => None
      case Some((t, rest)) =>
        if |rest| > 0 && rest[0] == ']' then Some(([t], rest[1..]))
        else if |rest| > 0 && rest[0] == ',' then
          match ParseItems(rest[1..])
          case None => None
          case Some((ts, rest')) => Some(([t] + ts, rest'))
        else None
  }

  function ParseEntries(s: string): (r: Option<(seq<Entry>, string)>)
    ensures r.Some? ==> |r.value.1| < |s|
    decreases |s|, 1
  {
    if |s| == 0 || s[0] != '"' then None
    else
      match ParseChars(s[1..])
      case None => None
      case Some((key, colon)) =>
        if |colon| == 0 || colon[0] != ':' then None
        else
          match ParseValue(colon[1..])
          case None => None
          case Some((t, rest)) =>
            if |rest| > 0 && rest[0] == '}' then Some(([Entry(key, t)], rest[1..]))
            else if |rest| > 0 && rest[0] == ',' then
              match ParseEntries(rest[1..])
              case None => None
              case Some((es, rest')) => Some(([Entry(key, t)] + es, rest'))
            else None
  }

  /** Decode a whole canonical text. */
  function Decode(s: string): Option<Tree> {
    match ParseValue(s)
    case None => None
    case Some((t, rest)) => if |rest| == 0 then Some(t) else None
  }

  lemma ParseUnitHex(u: Unit, rest: string)
    ensures ParseUnit("\\u" + Hex4(u) + rest) == Some((u, rest))
  {
    var s := "\\u" + Hex4(u) + rest;
    assert s[2..] == Hex4(u) + rest && s[6..] == rest;
    HexRoundTrip(u, rest);
  }

  lemma ParseUnitEscape(u: Unit, rest: string)
    ensures ParseUnit(EscapeUnit(u) + rest) == Some((u, rest))
    ensures EscapeUnit(u)[0] != '"'
  {
    var s := EscapeUnit(u) + rest;
    if EscapeUnit(u) == "\\u" + Hex4(u) {
      ParseUnitHex(u, rest);
    } else if |EscapeUnit(u)| == 2 {
      assert s[2..] == rest;
    } else {
      assert s[1..] == rest;
    }
  }

  lemma HexDigitValue(d: nat)
    requires d < 16
    ensures HexValue(HexDigit(d)) == Some(d)
  {}

  lemma HexSplit(u: Unit)
    ensures u / 4096 * 4096 + u / 256 % 16 * 256 + u / 16 % 16 * 16 + u % 16 == u
  {
    var p := u / 16;
    var q := p / 16;
    assert u == 16 * p + u % 16 && p == 16 * q + p % 16 && q == 16 * (q / 16) + q % 16;
    assert u / 256 == q && u / 4096 == q / 16;
  }

  lemma HexRoundTrip(u: Unit, rest: string)
    ensures ParseHex4(Hex4(u) + rest) == Some(u)
  {
    HexDigitValue(u / 4096);
    HexDigitValue(u / 256 % 16);
    HexDigitValue(u / 16 % 16);
    HexDigitValue(u % 16);
    var s := Hex4(u) + rest;
    assert s[0] == HexDigit(u / 4096) && s[1] == HexDigit(u / 256 % 16) && s[2] == HexDigit(u / 16 % 16) && s[3] == HexDigit(u % 16);
    HexSplit(u);
  }

  lemma ParseCharsStep(s: string, u: Unit, tail: string, us: Units, rest: string)
    requires |s| > 0 && s[0] != '"' && ParseUnit(s) == Some((u, tail)) && ParseChars(tail) == Some((us, rest))
    ensures ParseChars(s) == Some(([u] + us, rest))
  {}

  lemma {:induction false} ParseCharsEscape(us: Units, rest: string)
    ensures ParseChars(Escape(us) + "\"" + rest) == Some((us, rest))
  {
    var s := Escape(us) + "\"" + rest;
    if |us| == 0 {
      assert s == "\"" + rest;
    } else {
      var tail := Escape(us[1..]) + "\"" + rest;
      Enclosed(EscapeUnit(us[0]), Escape(us[1..]), "\"", rest);
      ParseUnitEscape(us[0], tail);
      assert s[0] == EscapeUnit(us[0])[0];
      ParseCharsEscape(us[1..], rest);
      ParseCharsStep(s, us[0], tail, us[1..], rest);
      assert us == [us[0]] + us[1..];
    }
  }

  /** A character that cannot continue a value. */
  ghost predicate Ends(rest: string) {
    |rest| > 0 ==> !IsDigit(rest[0])
  }

  lemma QuotedThen(us: Units, rest: string)
    ensures (Quote(us) + rest)[0] == '"' && (Quote(us) + rest)[1..] == Escape(us) + "\"" + rest
  {}

  /** The first character of a printed value. */
  lemma FirstChar(t: Tree)
    ensures |Print(t)| > 0 && Print(t)[0] != ']' && Print(t)[0] != '}'
    ensures t.TInt? ==> IsDigit(Print(t)[0]) || Print(t)[0] == '-'
  {
    match t {
      case TInt(n) => DigitsValue(if n < 0 then -n else n);
      case _ =>
    }
  }

  lemma {:induction false} ParsePrint(t: Tree, rest: string)
    requires Ends(rest)
    ensures ParseValue(Print(t) + rest) == Some((t, rest))
    decreases t
  {
    match t {
      case TInt(n) => ParseNumber(n, rest);
      case TString(us) => ParseString(us, rest);
      case TArray(items) =>
        if |items| > 0 { ParsePrintArray(items, rest); } else { assert items == []; ParseEmpty(rest); }
      case TObject(entries) =>
        if |entries| > 0 { ParsePrintObject(entries, rest); } else { assert entries == []; ParseEmpty(rest); }
      case _ => ParseLiteral(t, rest);
    }
  }

  lemma {:induction false} ParsePrintArray(items: seq<Tree>, rest: string)
    requires |items| > 0
    ensures ParseValue(Print(TArray(items)) + rest) == Some((TArray(items), rest))
    decreases items, 1
  {
    ParsePrintItems(items, rest);
    FirstChar(items[0]);
    var body := PrintItems(items) + "]" + rest;
    assert body[0] == Print(items[0])[0];
    ParseArray(body, items, rest);
    Enclosed("[", PrintItems(items), "]", rest);
  }

  lemma {:induction false} ParsePrintObject(entries: seq<Entry>, rest: string)
    requires |entries| > 0
    ensures ParseValue(Print(TObject(entries)) + rest) == Some((TObject(entries), rest))
    decreases entries, 1
  {
    ParsePrintEntries(entries, rest);
    var body := PrintEntries(entries) + "}" + rest;
    assert body[0] == '"';
    ParseObject(body, entries, rest);
    Enclosed("{", PrintEntries(entries), "}", rest);
  }

  lemma Enclosed(l: string, text: string, r: string, rest: string)
    ensures l + text + r + rest == l + (text + r + rest)
  {}

  lemma NotLiteral(s: string)
    requires |s| > 0 && s[0] != 'n' && s[0] != 't' && s[0] != 'f'
    ensures !StartsWith(s, "null") && !StartsWith(s, "true") && !StartsWith(s, "false")
  {
    assert "null"[0] == 'n' && "true"[0] == 't' && "false"[0] == 'f';
    assert forall k :: 0 < k <= |s| ==> s[..k][0] == s[0];
  }

  lemma ParseLiteral(t: Tree, rest: string)
    requires t.TNull? || t.TBool?
    ensures ParseValue(Print(t) + rest) == Some((t, rest))
  {
    var s := Print(t) + rest;
    assert s[..|Print(t)|] == Print(t) && s[|Print(t)|..] == rest;
    if !t.TNull? {
      assert s[0] == Print(t)[0];
      assert !StartsWith(s, "null") by { assert "null"[0] == 'n' && s[..4][0] == s[0]; }
      if !t.b {
        assert !StartsWith(s, "true") by { assert "true"[0] == 't' && s[..4][0] == s[0]; }
      }
    }
  }

  lemma ParseNumber(n: int, rest: string)
    requires Ends(rest)
    ensures ParseValue(IntText(n) + rest) == Some((TInt(n), rest))
  {
    var s := IntText(n) + rest;
    FirstChar(TInt(n));
    assert s[0] == IntText(n)[0];
    NotLiteral(s);
    ParseIntText(n, rest);
  }

  lemma ParseString(us: Units, rest: string)
    ensures ParseValue(Quote(us) + rest) == Some((TString(us), rest))
  {
    QuotedThen(us, rest);
    NotLiteral(Quote(us) + rest);
    ParseCharsEscape(us, rest);
  }

  lemma ParseEmpty(rest: string)
    ensures ParseValue(Print(TArray([])) + rest) == Some((TArray([]), rest))
    ensures ParseValue(Print(TObject([])) + rest) == Some((TObject([]), rest))
  {
    assert Print(TArray([])) == "[" + "" + "]" == "[]" && Print(TObject([])) == "{" + "" + "}" == "{}";
    NotLiteral("[]" + rest);
    NotLiteral("{}" + rest);
    assert ("[]" + rest)[2..] == rest && ("{}" + rest)[2..] == rest;
  }

  lemma ParseBracketed(s: string, body: string)
    requires |body| > 0 && (s == "[" + body || s == "{" + body)
    ensures s[1..] == body && s[1] == body[0]
    ensures !StartsWith(s, "null") && !StartsWith(s, "true") && !StartsWith(s, "false")
  {
    NotLiteral(s);
  }

  lemma ParseArray(body: string, items: seq<Tree>, rest: string)
    requires |body| > 0 && body[0] != ']' && ParseItems(body) == Some((items, rest))
    ensures ParseValue("[" + body) == Some((TArray(items), rest))
  {
    ParseBracketed("[" + body, body);
    ParseOpenBracket("[" + body, body, items, rest);
  }

  lemma ParseOpenBracket(s: string, body: string, items: seq<Tree>, rest: string)
    requires |s| > 1 && s[0] == '[' && s[1] != ']' && s[1..] == body && ParseItems(body) == Some((items, rest))
    requires !StartsWith(s, "null") && !StartsWith(s, "true") && !StartsWith(s, "false")
    ensures ParseValue(s) == Some((TArray(items), rest))
  {}

  lemma ParseObject(body: string, entries: seq<Entry>, rest: string)
    requires |body| > 0 && body[0] != '}' && ParseEntries(body) == Some((entries, rest))
    ensures ParseValue("{" + body) == Some((TObject(entries), rest))
  {
    ParseBracketed("{" + body, body);
    ParseOpenBrace("{" + body, body, entries, rest);
  }

  lemma ParseOpenBrace(s: string, body: string, entries: seq<Entry>, rest: string)
    requires |s| > 1 && s[0] == '{' && s[1] != '}' && s[1..] == body && ParseEntries(body) == Some((entries, rest))
    requires !StartsWith(s, "null") && !StartsWith(s, "true") && !StartsWith(s, "false")
    ensures ParseValue(s) == Some((TObject(entries), rest))
  {}

  lemma {:induction false} ParsePrintItems(items: seq<Tree>, rest: string)
    requires |items| > 0
    ensures ParseItems(PrintItems(items) + "]" + rest) == Some((items, rest))
    decreases items, 0
  {
    var s := PrintItems(items) + "]" + rest;
    FirstChar(items[0]);
    if |items| == 1 {
      assert s == Print(items[0]) + ("]" + rest);
      ParsePrint(items[0], "]" + rest);
      assert items == [items[0]];
      assert ("]" + rest)[1..] == rest;
    } else {
      var tail := PrintItems(items[1..]) + "]" + rest;
      assert s == Print(items[0]) + ("," + tail);
      ParsePrint(items[0], "," + tail);
      ParsePrintItems(items[1..], rest);
      assert ("," + tail)[1..] == tail;
      assert items == [items[0]] + items[1..];
    }
  }

  lemma ParseQuoted(us: Units, rest: string)
    ensures (Quote(us) + rest)[0] == '"' && ParseChars((Quote(us) + rest)[1..]) == Some((us, rest))
  {
    QuotedThen(us, rest);
    ParseCharsEscape(us, rest);
  }

  lemma ColonThen(q: string, text: string, after: string)
    ensures q + ":" + text + after == q + (":" + text + after)
    ensures (":" + text + after)[1..] == text + after
  {}

  lemma KeyThen(key: Units, text: string, after: string)
    ensures var s := Quote(key) + ":" + text + after;
            && s[0] == '"'
            && ParseChars(s[1..]) == Some((key, ":" + text + after))
            && (":" + text + after)[1..] == text + after
  {
    ParseQuoted(key, ":" + text + after);
    ColonThen(Quote(key), text, after);
  }

  lemma ParseLastEntry(s: string, key: Units, colon: string, value: Tree, after: string)
    requires |s| > 0 && s[0] == '"' && ParseChars(s[1..]) == Some((key, colon))
    requires |colon| > 0 && colon[0] == ':' && ParseValue(colon[1..]) == Some((value, after))
    requires |after| > 0 && after[0] == '}'
    ensures ParseEntries(s) == Some(([Entry(key, value)], after[1..]))
  {}

  lemma ParseMoreEntries(s: string, key: Units, colon: string, value: Tree, after: string, more: seq<Entry>, rest: string)
    requires |s| > 0 && s[0] == '"' && ParseChars(s[1..]) == Some((key, colon))
    requires |colon| > 0 && colon[0] == ':' && ParseValue(colon[1..]) == Some((value, after))
    requires |after| > 0 && after[0] == ',' && ParseEntries(after[1..]) == Some((more, rest))
    ensures ParseEntries(s) == Some(([Entry(key, value)] + more, rest))
  {}

  lemma Regroup(q: string, p: string, t: string, rest: string)
    ensures q + ":" + p + "}" + rest == q + ":" + p + ("}" + rest)
    ensures q + ":" + (p + "," + t) + "}" + rest == q + ":" + p + ("," + (t + "}" + rest))
  {}

  lemma PrintEntriesThen(entries: seq<Entry>, rest: string)
    requires |entries| > 0
    ensures |entries| == 1 ==>
              PrintEntries(entries) + "}" + rest == Quote(entries[0].key) + ":" + Print(entries[0].value) + ("}" + rest)
    ensures |entries| > 1 ==>
              PrintEntries(entries) + "}" + rest
              == Quote(entries[0].key) + ":" + Print(entries[0].value) + ("," + (PrintEntries(entries[1..]) + "}" + rest))
  {
    Regroup(Quote(entries[0].key), Print(entries[0].value), PrintEntries(entries[1..]), rest);
  }

  lemma LastEntryPrinted(key: Units, value: Tree, rest: string)
    requires ParseValue(Print(value) + ("}" + rest)) == Some((value, "}" + rest))
    ensures ParseEntries(Quote(key) + ":" + Print(value) + ("}" + rest)) == Some(([Entry(key, value)], rest))
  {
    var after := "}" + rest;
    KeyThen(key, Print(value), after);
    ParseLastEntry(Quote(key) + ":" + Print(value) + after, key, ":" + Print(value) + after, value, after);
    assert after[1..] == rest;
  }

  lemma MoreEntriesPrinted(key: Units, value: Tree, tail: string, more: seq<Entry>, rest: string)
    requires ParseValue(Print(value) + ("," + tail)) == Some((value, "," + tail)) && ParseEntries(tail) == Some((more, rest))
    ensures ParseEntries(Quote(key) + ":" + Print(value) + ("," + tail)) == Some(([Entry(key, value)] + more, rest))
  {
    var after := "," + tail;
    KeyThen(key, Print(value), after);
    assert after[1..] == tail;
    ParseMoreEntries(Quote(key) + ":" + Print(value) + after, key, ":" + Print(value) + after, value, after, more, rest);
  }

  lemma {:induction false} ParsePrintEntries(entries: seq<Entry>, rest: string)
    requires |entries| > 0
    ensures ParseEntries(PrintEntries(entries) + "}" + rest) == Some((entries, rest))
    decreases entries, 0
  {
    var Entry(key, value) := entries[0];
    PrintEntriesThen(entries, rest);
    if |entries| == 1 {
      ParsePrint(value, "}" + rest);
      LastEntryPrinted(key, value, rest);
      assert entries == [Entry(key, value)];
    } else {
      var tail := PrintEntries(entries[1..]) + "}" + rest;
      ParsePrint(value, "," + tail);
      ParsePrintEntries(entries[1..], rest);
      MoreEntriesPrinted(key, value, tail, entries[1..], rest);
      assert entries == [Entry(key, value)] + entries[1..];
    }
  }

  /** Decoding undoes printing, for every tree. */
  lemma DecodePrint(t: Tree)
    ensures Decode(Print(t)) == Some(t)
  {
    ParsePrint(t, "");
    assert Print(t) + "" == Print(t);
  }

  // ---- Exactly which values share a text -------------------------------------------------------

  /** A JavaScript object has each key once. */
  ghost predicate Proper(v: Json)
    decreases v
  {
    match v
    case JArray(items) => forall i :: 0 <= i < |items| ==> Proper(items[i])
    case JObject(members) =>
      && (forall i, j :: 0 <= i < j < |members| ==> members[i].key != members[j].key)
      && (forall i :: 0 <= i < |members| ==> Proper(members[i].value))
    case _ => true
  }

  /** The same data: undefined is null, -0 is 0, numbers agree in value, a bigint agrees with the
      number whose shortest decimal it is, and objects agree when they have the same keys with
      the same data under each. */
  ghost predicate SameData(a: Json, b: Json)
    decreases a
  {
    match a
    case JNull => b.JNull? || b.JUndefined?
    case JUndefined => b.JNull? || b.JUndefined?
    case JBool(x) => b == JBool(x)
    case JBigInt(n) => b == JBigInt(n) || (b.JNumber? && n == DecimalOf(b.x))
    case JNumber(x) =>
      (b.JBigInt? && b.i == DecimalOf(x)) || (b.JNumber? && NumberValue(b.x) == NumberValue(x))
    case JString(s) => b == JString(s)
    case JArray(items) =>
      b.JArray? && |items| == |b.items| && forall i :: 0 <= i < |items| ==> SameData(items[i], b.items[i])
    case JObject(members) =>
      && b.JObject?
      && (forall k :: HasMember(members, k) <==> HasMember(b.members, k))
      && (forall i, j :: 0 <= i < |members| && 0 <= j < |b.members| && members[i].key == b.members[j].key ==>
            SameData(members[i].value, b.members[j].value))
  }

  predicate HasMember(members: seq<Member>, k: Units) {
    exists i :: 0 <= i < |members| && members[i].key == k
  }

  ghost predicate ProperMembers(members: seq<Member>) {
    forall i, j :: 0 <= i < j < |members| ==> members[i].key != members[j].key
  }

  function KeyOf(m: Member): Units { m.key }
  function UnitsKey(k: Units): Key { [k] }

  lemma SortedKeys(members: seq<Member>)
    requires ProperMembers(members)
    ensures Map(KeyOf, SortBy(MemberKey, members)) == SortBy(UnitsKey, Map(KeyOf, members))
  {
    forall x, y | UnitsKey(x) == UnitsKey(y) ensures x == y {
      assert UnitsKey(x)[0] == x && UnitsKey(y)[0] == y;
    }
    SortCommutes(MemberKey, UnitsKey, KeyOf, members);
  }

  /** Objects with the same keys are printed in the same key order. */
  lemma SameKeysSameOrder(a: seq<Member>, b: seq<Member>)
    requires ProperMembers(a) && ProperMembers(b)
    requires forall k :: HasMember(a, k) <==> HasMember(b, k)
    ensures Map(KeyOf, SortBy(MemberKey, a)) == Map(KeyOf, SortBy(MemberKey, b))
  {
    SortedKeys(a);
    SortedKeys(b);
    var x, y := Map(KeyOf, a), Map(KeyOf, b);
    forall k ensures multiset(x)[k] == multiset(y)[k] {
      KeyCount(a, k);
      KeyCount(b, k);
    }
    assert multiset(x) == multiset(y);
    forall p, q | UnitsKey(p) == UnitsKey(q) ensures p == q {
      assert UnitsKey(p)[0] == p && UnitsKey(q)[0] == q;
    }
    SortIgnoresOrder(UnitsKey, x, y);
  }

  lemma HasMemberCons(members: seq<Member>, x: Units)
    requires |members| > 0
    ensures HasMember(members, x) <==> members[0].key == x || HasMember(members[1..], x)
  {
    if HasMember(members[1..], x) {
      var j :| 0 <= j < |members[1..]| && members[1..][j].key == x;
      assert members[j + 1].key == x;
    }
    if HasMember(members, x) {
      var j :| 0 <= j < |members| && members[j].key == x;
      if j > 0 { assert members[1..][j - 1].key == x; }
    }
  }

  // ---- Own properties ----------------------------------------------------------------------

  /** Property read; absent properties read as undefined. */
  function Lookup(members: seq<Member>, k: Units): Json {
    if |members| == 0 then JUndefined
    else if members[0].key == k then members[0].value
    else Lookup(members[1..], k)
  }

  /** Property write: an existing property keeps its place. */
  function Assign(members: seq<Member>, k: Units, v: Json): seq<Member> {
    if |members| == 0 then [Member(k, v)]
    else if members[0].key == k then [Member(k, v)] + members[1..]
    else [members[0]] + Assign(members[1..], k, v)
  }

  lemma {:induction false} AssignFacts(members: seq<Member>, k: Units, v: Json)
    requires ProperMembers(members)
    ensures ProperMembers(Assign(members, k, v))
    ensures forall x :: HasMember(Assign(members, k, v), x) <==> x == k || HasMember(members, x)
    ensures forall x :: Lookup(Assign(members, k, v), x) == if x == k then v else Lookup(members, x)
    ensures forall i :: 0 <= i < |Assign(members, k, v)| ==>
              Assign(members, k, v)[i] == Member(k, v) || Assign(members, k, v)[i] in members
  {
    var r := Assign(members, k, v);
    if |members| == 0 {
      assert r[0].key == k;
    } else if members[0].key == k {
      assert r[1..] == members[1..];
      assert r[0].key == k;
      forall x ensures HasMember(r, x) <==> x == k || HasMember(members, x) { HasMemberCons(r, x); HasMemberCons(members, x); }
    } else {
      AssignFacts(members[1..], k, v);
      var rest := Assign(members[1..], k, v);
      assert r[1..] == rest;
      forall x ensures HasMember(r, x) <==> x == k || HasMember(members, x) { HasMemberCons(r, x); HasMemberCons(members, x); }
      assert forall j :: 0 <= j < |members[1..]| ==> members[1..][j].key == members[j + 1].key != members[0].key;
      forall i, j | 0 <= i < j < |r| ensures r[i].key != r[j].key {
        if i == 0 {
          assert HasMember(rest, rest[j - 1].key);
        }
      }
    }
  }

  /** Writing a property that is not there appends it. */
  lemma {:induction false} AssignGrows(members: seq<Member>, k: Units, v: Json)
    ensures |Assign(members, k, v)| == |members| + (if HasMember(members, k) then 0 else 1)
    ensures !HasMember(members, k) ==> Assign(members, k, v) == members + [Member(k, v)]
  {
    if |members| > 0 {
      HasMemberCons(members, k);
      if members[0].key != k { AssignGrows(members[1..], k, v); }
    }
  }

  /** The object that the properties make when they are written one after another. */
  function Merged(members: seq<Member>): seq<Member> {
    if |members| == 0 then []
    else
      var last := members[|members| - 1];
      Assign(Merged(members[..|members| - 1]), last.key, last.value)
  }

  lemma HasMemberSnoc(members: seq<Member>, k: Units)
    requires |members| > 0
    ensures HasMember(members, k) <==> members[|members| - 1].key == k || HasMember(members[..|members| - 1], k)
  {
    var n := |members| - 1;
    if HasMember(members[..n], k) {
      var i :| 0 <= i < n && members[..n][i].key == k;
      assert members[i].key == k;
    }
    if i :| 0 <= i < |members| && members[i].key == k {
      if i < n { assert members[..n][i].key == k; }
    }
  }

  lemma ProperSnoc(members: seq<Member>)
    requires |members| > 0
    ensures var n := |members| - 1;
            ProperMembers(members) <==> ProperMembers(members[..n]) && !HasMember(members[..n], members[n].key)
  {
    var n := |members| - 1;
    if ProperMembers(members[..n]) && !HasMember(members[..n], members[n].key) {
      forall i, j | 0 <= i < j < |members| ensures members[i].key != members[j].key {
        assert members[..n][i].key == members[i].key;
        if j < n { assert members[..n][j].key == members[j].key; }
      }
    }
  }

  /** Each key once, and each property one of those written. */
  lemma {:induction false} MergedFacts(members: seq<Member>)
    ensures ProperMembers(Merged(members))
    ensures forall k :: HasMember(Merged(members), k) <==> HasMember(members, k)
    ensures forall i :: 0 <= i < |Merged(members)| ==> Merged(members)[i] in members
  {
    if |members| > 0 {
      var n := |members| - 1;
      var before, last := members[..n], members[n];
      MergedFacts(before);
      AssignFacts(Merged(before), last.key, last.value);
      forall k ensures HasMember(Merged(members), k) <==> HasMember(members, k) { HasMemberSnoc(members, k); }
      forall i | 0 <= i < |Merged(members)| ensures Merged(members)[i] in members { assert members == before + [last]; }
    }
  }

  lemma MergedSnoc(before: seq<Member>, last: Member)
    ensures HasMember(before, last.key) ==> |Merged(before + [last])| == |Merged(before)|
    ensures !HasMember(before, last.key) ==> Merged(before + [last]) == Merged(before) + [last]
  {
    assert (before + [last])[..|before|] == before;
    MergedFacts(before);
    AssignGrows(Merged(before), last.key, last.value);
  }

  /** As many properties as were written exactly when no key was written twice. */
  lemma {:induction false} MergedSize(members: seq<Member>)
    ensures |Merged(members)| <= |members|
    ensures if ProperMembers(members) then Merged(members) == members else |Merged(members)| < |members|
  {
    if |members| > 0 {
      var n := |members| - 1;
      assert members == members[..n] + [members[n]];
      MergedSize(members[..n]);
      MergedSnoc(members[..n], members[n]);
      ProperSnoc(members);
    }
  }

  lemma TailOfProper(members: seq<Member>)
    requires |members| > 0 && ProperMembers(members)
    ensures ProperMembers(members[1..]) && !HasMember(members[1..], members[0].key)
  {
    forall j | 0 <= j < |members[1..]| ensures members[1..][j].key != members[0].key {
      assert members[1..][j] == members[j + 1];
    }
  }

  lemma {:induction false} KeyCount(members: seq<Member>, k: Units)
    requires ProperMembers(members)
    ensures multiset(Map(KeyOf, members))[k] == if HasMember(members, k) then 1 else 0
  {
    if |members| > 0 {
      var rest := members[1..];
      TailOfProper(members);
      KeyCount(rest, k);
      HasMemberCons(members, k);
      assert Map(KeyOf, members) == [members[0].key] + Map(KeyOf, rest);
    }
  }

  lemma SortedHasMember(members: seq<Member>, i: nat) returns (p: nat)
    requires i < |members|
    ensures p < |SortBy(MemberKey, members)| && SortBy(MemberKey, members)[p] == members[i]
  {
    SortMembers(MemberKey, members);
    assert members[i] in SortBy(MemberKey, members);
    p :| 0 <= p < |SortBy(MemberKey, members)| && SortBy(MemberKey, members)[p] == members[i];
  }

  lemma SortedFromMember(members: seq<Member>, p: nat) returns (i: nat)
    requires p < |SortBy(MemberKey, members)|
    ensures i < |members| && SortBy(MemberKey, members)[p] == members[i]
  {
    SortKeepsMembers(members);
    i :| 0 <= i < |members| && SortBy(MemberKey, members)[p] == members[i];
  }

  /** Canonical trees are equal exactly for values with the same data. */
  lemma {:induction false} CanonIffSameData(a: Json, b: Json)
    requires Proper(a) && Proper(b)
    ensures Canon(a) == Canon(b) <==> SameData(a, b)
    decreases a
  {
    match a {
      case JArray(items) =>
        if b.JArray? {
          forall i | 0 <= i < |items| && i < |b.items|
            ensures Canon(items[i]) == Canon(b.items[i]) <==> SameData(items[i], b.items[i])
          {
            CanonIffSameData(items[i], b.items[i]);
          }
          ArrayCanon(items, b.items, a, b);
        }
      case JObject(members) =>
        if b.JObject? {
          forall i, j | 0 <= i < |members| && 0 <= j < |b.members|
            ensures Canon(members[i].value) == Canon(b.members[j].value) <==> SameData(members[i].value, b.members[j].value)
          {
            CanonIffSameData(members[i].value, b.members[j].value);
          }
          ObjectCanon(a, b);
        }
      case JNumber(x) =>
        if b.JNumber? { NumberTextIsInjective(x, b.x); }
      case _ =>
    }
  }

  lemma NumberTextIsInjective(x: Number, y: Number)
    ensures DecimalOf(x) == DecimalOf(y) <==> NumberValue(x) == NumberValue(y)
  {
    if x.Integral? { ShortestReadsBack(x.n); }
    if y.Integral? { ShortestReadsBack(y.n); }
    ShortestOfZero();
  }

  lemma ShortestOfZero()
    ensures Shortest(0) == 0 && Nearest(0) == 0
  {
    SafeIntegers(0);
  }

  lemma ArrayCanon(x: seq<Json>, y: seq<Json>, a: Json, b: Json)
    requires a == JArray(x) && b == JArray(y)
    ensures Canon(a) == Canon(b) <==> |x| == |y| && forall i :: 0 <= i < |x| ==> Canon(x[i]) == Canon(y[i])
  {
    if |x| == |y| && forall i :: 0 <= i < |x| ==> Canon(x[i]) == Canon(y[i]) {
      assert Canon(a).items == Canon(b).items;
    }
    if Canon(a) == Canon(b) {
      assert |Canon(a).items| == |x| && |Canon(b).items| == |y|;
      forall i | 0 <= i < |x| ensures Canon(x[i]) == Canon(y[i]) {
        assert Canon(a).items[i] == Canon(b).items[i];
      }
    }
  }

  lemma ObjectCanon(a: Json, b: Json)
    requires a.JObject? && b.JObject? && Proper(a) && Proper(b)
    ensures Canon(a) == Canon(b) <==>
            && (forall k :: HasMember(a.members, k) <==> HasMember(b.members, k))
            && (forall i, j :: 0 <= i < |a.members| && 0 <= j < |b.members| && a.members[i].key == b.members[j].key ==>
                  Canon(a.members[i].value) == Canon(b.members[j].value))
  {
    if Canon(a) == Canon(b) {
      forall k | HasMember(a.members, k) ensures HasMember(b.members, k) { EqualTreesEqualKeys(a, b, k); }
      forall k | HasMember(b.members, k) ensures HasMember(a.members, k) { EqualTreesEqualKeys(b, a, k); }
      forall i, j | 0 <= i < |a.members| && 0 <= j < |b.members| && a.members[i].key == b.members[j].key
        ensures Canon(a.members[i].value) == Canon(b.members[j].value)
      {
        EqualTreesEqualValues(a, b, i, j);
      }
    } else if && (forall k :: HasMember(a.members, k) <==> HasMember(b.members, k))
              && (forall i, j :: 0 <= i < |a.members| && 0 <= j < |b.members| && a.members[i].key == b.members[j].key ==>
                    Canon(a.members[i].value) == Canon(b.members[j].value)) {
      SameMembersSameTree(a, b);
    }
  }

  lemma EqualTreesEqualKeys(a: Json, b: Json, k: Units)
    requires a.JObject? && b.JObject? && Canon(a) == Canon(b) && HasMember(a.members, k)
    ensures HasMember(b.members, k)
  {
    var i: nat :| i < |a.members| && a.members[i].key == k;
    var p := SortedHasMember(a.members, i);
    assert Canon(a).entries[p].key == k;
    assert Canon(b).entries[p].key == k;
    var j := SortedFromMember(b.members, p);
  }

  lemma EqualTreesEqualValues(a: Json, b: Json, i: nat, j: nat)
    requires a.JObject? && b.JObject? && Canon(a) == Canon(b) && ProperMembers(b.members)
    requires i < |a.members| && j < |b.members| && a.members[i].key == b.members[j].key
    ensures Canon(a.members[i].value) == Canon(b.members[j].value)
  {
    var p := SortedHasMember(a.members, i);
    assert Canon(a).entries[p] == Entry(a.members[i].key, Canon(a.members[i].value));
    assert Canon(b).entries[p] == Canon(a).entries[p];
    var m := SortedFromMember(b.members, p);
    assert b.members[m].key == b.members[j].key;
    assert m == j;
  }

  lemma SameMembersSameTree(a: Json, b: Json)
    requires a.JObject? && b.JObject? && ProperMembers(a.members) && ProperMembers(b.members)
    requires forall k :: HasMember(a.members, k) <==> HasMember(b.members, k)
    requires forall i, j :: 0 <= i < |a.members| && 0 <= j < |b.members| && a.members[i].key == b.members[j].key ==>
               Canon(a.members[i].value) == Canon(b.members[j].value)
    ensures Canon(a) == Canon(b)
  {
    SameKeysSameOrder(a.members, b.members);
    var x, y := SortBy(MemberKey, a.members), SortBy(MemberKey, b.members);
    assert |x| == |Map(KeyOf, x)| == |Map(KeyOf, y)| == |y|;
    forall p | 0 <= p < |x| ensures Canon(a).entries[p] == Canon(b).entries[p] {
      assert x[p].key == Map(KeyOf, x)[p] == Map(KeyOf, y)[p] == y[p].key;
      var i := SortedFromMember(a.members, p);
      var j := SortedFromMember(b.members, p);
    }
    assert Canon(a).entries == Canon(b).entries;
  }

  /** The canonical text is unambiguous and forgets nothing but the stated variation: two
      printable values have one text exactly when they are the same data. */
  lemma CanonicalTextIdentifiesData(a: Json, b: Json)
    requires Proper(a) && Proper(b) && Encodable(a) && Encodable(b)
    ensures Encode(a).Some? && Encode(b).Some?
    ensures Encode(a) == Encode(b) <==> SameData(a, b)
  {
    EncodePrintsCanon(a);
    EncodePrintsCanon(b);
    DecodePrint(Canon(a));
    DecodePrint(Canon(b));
    CanonIffSameData(a, b);
  }

  /** A number and a bigint share a text exactly when the bigint is the number's shortest
      decimal; so a number and the equal bigint do for every safe integer. */
  lemma NumberSharesBigIntText(n: Whole, i: int)
    ensures Encode(JNumber(Integral(n))) == Encode(JBigInt(i)) <==> i == Shortest(n)
    ensures -TWO53 < n < TWO53 ==> Shortest(n) == n
  {
    if IntText(i) == IntText(Shortest(n)) { IntTextInjective(i, Shortest(n)); }
    if -TWO53 < n < TWO53 { SafeIntegers(n); }
  }

  /** Beyond the safe integers they need not: 2^60 prints differently as a number. */
  lemma TwoToThe60HasTwoTexts()
    ensures IsDouble(TWO60) && Encode(JNumber(Integral(TWO60))) != Encode(JBigInt(TWO60))
  {
    TwoToThe60();
    NumberSharesBigIntText(TWO60, TWO60);
  }
}
