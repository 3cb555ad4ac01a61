/** Signed, expiring email-verification tokens: payload.expiry.signature, each segment unpadded
    base64url. Instants are microseconds since the epoch, the resolution of a datetime. */
module Tokens {
  import opened Sorting
  import opened Wrappers
  import opened Decimal
  import opened CanonicalJson
  import opened CanonicalParity
  import opened Base64

  const SECOND := 1_000_000
  /** The first and last instants a datetime can hold, in years 1 and 9999. */
  const MIN_INSTANT := -62_135_596_800_000_000
  const MAX_INSTANT := 253_402_300_799_999_999

  // "user_id" and "email"
  const USER_ID: Units := [0x75, 0x73, 0x65, 0x72, 0x5f, 0x69, 0x64]
  const EMAIL: Units := [0x65, 0x6d, 0x61, 0x69, 0x6c]

  predicate Representable(instant: int) { MIN_INSTANT <= instant <= MAX_INSTANT }

  datatype Claim = Claim(userId: Points, email: Points)
  datatype Issuance = Issued(token: string) | OutOfRange
  datatype Verdict = Verified(claim: Claim) | TokenInvalid | TokenExpired | EncodingError
  /** Constructing a signer refuses an empty secret. */
  type Secret = b: Bytes | |b| > 0 witness [0]
  datatype Signer = Signer(secret: Secret)

  /** The library calls: the HMAC, and what base64, int() and json.loads() make of text in a
      form that no signer issues. */
  datatype Library = Library(
    hmac: (Bytes, Bytes) -> Bytes,
    looseBase64: string -> Option<Bytes>,
    looseInt: string -> Option<int>,
    looseJson: Bytes -> Option<PyJson>)

  // ---- Text -------------------------------------------------------------------------------

  predicate IsAscii(s: string) {
    forall i :: 0 <= i < |s| ==> s[i] as int < 128
  }

  function AsciiBytes(s: string): (r: Bytes)
    requires IsAscii(s)
    ensures |r| == |s|
  {
    seq(|s|, i requires 0 <= i < |s| => s[i] as int)
  }

  /** bytes.decode("ascii"): None is the UnicodeDecodeError. */
  function AsciiText(raw: Bytes): Option<string> {
    if forall i :: 0 <= i < |raw| ==> raw[i] < 128
    then Some(seq(|raw|, i requires 0 <= i < |raw| => raw[i] as char))
    else None
  }

  lemma AsciiRoundTrip(s: string)
    requires IsAscii(s)
    ensures AsciiText(AsciiBytes(s)) == Some(s)
  {
    var raw := AsciiBytes(s);
    assert forall i :: 0 <= i < |raw| ==> raw[i] == s[i] as int && raw[i] as char == s[i];
    assert AsciiText(raw).value == s;
  }

  /** str.split("."). */
  function Split(s: string): (r: seq<string>)
    ensures |r| > 0
  {
    if |s| == 0 then [""]
    else if s[0] == '.' then [""] + Split(s[1..])
    else
      var r := Split(s[1..]);
      [[s[0]] + r[0]] + r[1..]
  }

  function Join(parts: seq<string>): string
    requires |parts| > 0
  {
    if |parts| == 1 then parts[0] else parts[0] + "." + Join(parts[1..])
  }

  lemma {:induction false} JoinSplit(s: string)
    ensures Join(Split(s)) == s
    ensures forall i :: 0 <= i < |Split(s)| ==> '.' !in Split(s)[i]
  {
    if |s| > 0 {
      var r := Split(s[1..]);
      JoinSplit(s[1..]);
      assert s == [s[0]] + s[1..];
      if s[0] == '.' {
        assert Split(s)[1..] == r;
        assert "" + "." + Join(r) == s;
      } else {
        assert Split(s)[1..] == r[1..];
        forall i | 0 <= i < |Split(s)| ensures '.' !in Split(s)[i] {
          if i > 0 { assert Split(s)[i] == r[i]; }
        }
        if |r| > 1 { assert Join(Split(s)) == [s[0]] + (r[0] + "." + Join(r[1..])); }
      }
    }
  }

  lemma {:induction false} SplitSegment(a: string, rest: string)
    requires '.' !in a
    ensures Split(a + "." + rest) == [a] + Split(rest)
    ensures Split(a) == [a]
  {
    var s := a + "." + rest;
    if |a| == 0 {
      assert s[1..] == rest;
    } else {
      assert forall c :: c in a[1..] ==> c in a;
      SplitSegment(a[1..], rest);
      assert s[1..] == a[1..] + "." + rest;
      assert s[0] == a[0] && a[0] in a;
      assert [a[0]] + a[1..] == a;
    }
  }

  /** A token has the three given segments exactly when it joins them with two dots. */
  lemma ThreeSegments(token: string, a: string, b: string, c: string)
    ensures Split(token) == [a, b, c] <==>
            token == a + "." + b + "." + c && '.' !in a && '.' !in b && '.' !in c
  {
    if Split(token) == [a, b, c] {
      JoinSplit(token);
      assert Split(token)[0] == a && Split(token)[1] == b && Split(token)[2] == c;
      assert [a, b, c][1..] == [b, c] && [b, c][1..] == [c];
      assert Join([b, c]) == b + "." + c;
      assert a + "." + (b + "." + c) == a + "." + b + "." + c;
    } else if token == a + "." + b + "." + c && '.' !in a && '.' !in b && '.' !in c {
      assert token == a + "." + (b + "." + c);
      SplitSegment(a, b + "." + c);
      SplitSegment(b, c);
      SplitSegment(c, "");
    }
  }

  // ---- Issuing ----------------------------------------------------------------------------

  /** int(): truncation toward zero. */
  function WholeSeconds(instant: int): int {
    if instant >= 0 then instant / SECOND else -(-instant / SECOND)
  }

  function ClaimJson(claim: Claim): PyJson {
    PyDict([PyMember(USER_ID, PyStr(claim.userId)), PyMember(EMAIL, PyStr(claim.email))])
  }

  function SignedPortion(payload: string, expiry: string): string {
    payload + "." + expiry
  }

  /** _sign(): None is the UnicodeEncodeError of a segment outside ASCII. */
  function Sign(lib: Library, signer: Signer, payload: string, expiry: string): Option<string> {
    if IsAscii(SignedPortion(payload, expiry))
    then Some(Base64.Encode(lib.hmac(signer.secret, AsciiBytes(SignedPortion(payload, expiry)))))
    else None
  }

  function PayloadSegment(claim: Claim): string {
    PyTextIsAscii(ClaimJson(claim));
    Base64.Encode(AsciiBytes(PyText(ClaimJson(claim))))
  }

  function ExpirySegment(expiry: int): string {
    IntTextIsAscii(WholeSeconds(expiry));
    Base64.Encode(AsciiBytes(IntText(WholeSeconds(expiry))))
  }

  function Token(lib: Library, signer: Signer, claim: Claim, expiry: int): string {
    SegmentsAreAscii(claim, expiry);
    SignedPortion(PayloadSegment(claim), ExpirySegment(expiry)) + "." +
    Sign(lib, signer, PayloadSegment(claim), ExpirySegment(expiry)).value
  }

  lemma DigitsAreAscii(n: nat)
    ensures IsAscii(Digits(n))
  {
    if n >= 10 { DigitsAreAscii(n / 10); }
  }

  lemma IntTextIsAscii(n: int)
    ensures IsAscii(IntText(n))
  {
    DigitsAreAscii(if n < 0 then -n else n);
  }

  lemma HexIsAscii(u: Unit)
    ensures IsAscii("\\u" + Hex4(u))
  {
    AsciiConcat("\\u", Hex4(u));
    assert forall d: nat :: d < 16 ==> HexDigit(d) as int < 128;
  }

  lemma EscapeUnitIsAscii(u: Unit)
    ensures IsAscii(EscapeUnit(u))
  {
    if u < 0x20 || u > 0x7e {
      HexIsAscii(u);
    }
  }

  lemma {:induction false} EscapeIsAscii(us: Units)
    ensures IsAscii(Escape(us))
  {
    if |us| > 0 {
      EscapeIsAscii(us[1..]);
      EscapeUnitIsAscii(us[0]);
      AsciiConcat(EscapeUnit(us[0]), Escape(us[1..]));
    }
  }

  lemma QuoteIsAscii(us: Units)
    ensures IsAscii(Quote(us))
  {
    EscapeIsAscii(us);
  }

  /** ensure_ascii, for every tree. */
  lemma {:induction false} PrintIsAscii(t: Tree)
    ensures IsAscii(Print(t))
    decreases t
  {
    match t {
      case TNull => assert IsAscii("null");
      case TBool(b) => assert IsAscii("true") && IsAscii("false");
      case TInt(n) => IntTextIsAscii(n);
      case TString(s) => QuoteIsAscii(s);
      case TArray(items) => ItemsAreAscii(items);
      case TObject(entries) => EntriesAreAscii(entries);
    }
  }

  lemma {:induction false} ItemsAreAscii(items: seq<Tree>)
    ensures IsAscii(PrintItems(items))
    decreases items
  {
    if |items| > 0 {
      PrintIsAscii(items[0]);
      ItemsAreAscii(items[1..]);
    }
  }

  lemma {:induction false} EntriesAreAscii(entries: seq<Entry>)
    ensures IsAscii(PrintEntries(entries))
    decreases entries
  {
    if |entries| > 0 {
      QuoteIsAscii(entries[0].key);
      PrintIsAscii(entries[0].value);
      EntriesAreAscii(entries[1..]);
    }
  }

  lemma PyTextIsAscii(v: PyJson)
    ensures IsAscii(PyText(v))
  {
    PyTextPrintsTree(v);
    PrintIsAscii(PyTree(v));
  }

  lemma SegmentsAreAscii(claim: Claim, expiry: int)
    ensures IsAscii(SignedPortion(PayloadSegment(claim), ExpirySegment(expiry)))
    ensures '.' !in PayloadSegment(claim) && '.' !in ExpirySegment(expiry)
  {
    PyTextIsAscii(ClaimJson(claim));
    IntTextIsAscii(WholeSeconds(expiry));
    EncodeAlphabet(AsciiBytes(PyText(ClaimJson(claim))));
    EncodeAlphabet(AsciiBytes(IntText(WholeSeconds(expiry))));
  }

  // ---- Verifying --------------------------------------------------------------------------

  /** What json.loads makes of a canonical text: surrogate escapes are joined. */
  function FromTree(t: Tree): PyJson
    decreases t
  {
    match t
    case TNull => PyNone
    case TBool(b) => PyBool(b)
    case TInt(n) => PyInt(n)
    case TString(s) => PyStr(FromUtf16(s))
    case TArray(items) => PyList(seq(|items|, i requires 0 <= i < |items| => FromTree(items[i])))
    case TObject(entries) =>
      PyDict(seq(|entries|, i requires 0 <= i < |entries| => PyMember(FromUtf16(entries[i].key), FromTree(entries[i].value))))
  }

  function Loads(lib: Library, raw: Bytes): Option<PyJson> {
    match AsciiText(raw)
    case None => lib.looseJson(raw)
    case Some(text) =>
      match CanonicalJson.Decode(text)
      case None => lib.looseJson(raw)
      case Some(t) => if Print(t) == text then Some(FromTree(t)) else lib.looseJson(raw)
  }

  function ParseTimestamp(lib: Library, text: string): Option<int> {
    match ParseInt(text)
    case None => lib.looseInt(text)
    case Some((n, _)) => if IntText(n) == text then Some(n) else lib.looseInt(text)
  }

  /** dict.get() of a string: of equal keys in the text, the last one counts. */
  function GetString(members: seq<PyMember>, key: Points): Option<Points> {
    if |members| == 0 then None
    else
      var last := members[|members| - 1];
      if last.key == key then (if last.value.PyStr? then Some(last.value.s) else None)
      else GetString(members[..|members| - 1], key)
  }

  function ReadExpiry(lib: Library, segment: string): Option<int> {
    match Base64.Decode(segment, lib.looseBase64)
    case None => None
    case Some(raw) =>
      match AsciiText(raw)
      case None => None
      case Some(text) => ParseTimestamp(lib, text)
  }

  function ReadPayload(lib: Library, segment: string): Option<PyJson> {
    match Base64.Decode(segment, lib.looseBase64)
    case None => None
    case Some(raw) => Loads(lib, raw)
  }

  function ClaimOf(payload: PyJson): Verdict {
    if !payload.PyDict? then TokenInvalid
    else
      match (GetString(payload.members, USER_ID), GetString(payload.members, EMAIL))
      case (Some(userId), Some(email)) => Verified(Claim(userId, email))
      case _ => TokenInvalid
  }

  function Verify(lib: Library, signer: Signer, token: string, now: int): Verdict {
    var parts := Split(token);
    if |parts| != 3 then TokenInvalid
    else
      match Sign(lib, signer, parts[0], parts[1])
      case None => EncodingError
      case Some(expected) =>
        if !IsAscii(parts[2]) then EncodingError  // compare_digest refuses such a string
        else if expected != parts[2] then TokenInvalid
        else
          match (ReadExpiry(lib, parts[1]), ReadPayload(lib, parts[0]))
          case (Some(expiry), Some(payload)) =>
            if now > expiry * SECOND then TokenExpired else ClaimOf(payload)
          case _ => TokenInvalid
  }

  // ---- What an issued token does -----------------------------------------------------------

  /** An issued token is exactly its three segments. */
  lemma IssuedTokenSplits(lib: Library, signer: Signer, claim: Claim, expiry: int)
    ensures Sign(lib, signer, PayloadSegment(claim), ExpirySegment(expiry)).Some?
    ensures Split(Token(lib, signer, claim, expiry))
            == [PayloadSegment(claim), ExpirySegment(expiry), Sign(lib, signer, PayloadSegment(claim), ExpirySegment(expiry)).value]
    ensures IsAscii(Token(lib, signer, claim, expiry))
  {
    SegmentsAreAscii(claim, expiry);
    var p, e := PayloadSegment(claim), ExpirySegment(expiry);
    var s := Sign(lib, signer, p, e).value;
    EncodeAlphabet(lib.hmac(signer.secret, AsciiBytes(SignedPortion(p, e))));
    assert IsAscii(s) && '.' !in s;
    ThreeSegments(Token(lib, signer, claim, expiry), p, e, s);
  }

  lemma ReadExpiryBack(lib: Library, expiry: int)
    ensures ReadExpiry(lib, ExpirySegment(expiry)) == Some(WholeSeconds(expiry))
  {
    var n := WholeSeconds(expiry);
    var text := IntText(n);
    IntTextIsAscii(n);
    DecodeEncode(AsciiBytes(text), lib.looseBase64);
    AsciiRoundTrip(text);
    ParseIntText(n, "");
    assert text + "" == text;
  }

  /** The claim as json.loads reads it back: split surrogate pairs are joined. */
  function Joined(claim: Claim): Claim {
    Claim(FromUtf16(Utf16(claim.userId)), FromUtf16(Utf16(claim.email)))
  }

  function ClaimTree(claim: Claim): Tree {
    TObject([Entry(EMAIL, TString(Utf16(claim.email))), Entry(USER_ID, TString(Utf16(claim.userId)))])
  }

  lemma AsciiUnits(s: Units)
    requires forall i :: 0 <= i < |s| ==> s[i] < 128
    ensures Utf16(s) == s && FromUtf16(s) == s
  {
    if |s| > 0 { AsciiUnits(s[1..]); }
  }

  lemma SortTwo(a: PyMember, b: PyMember)
    requires |a.key| > 0 && |b.key| > 0 && b.key[0] < a.key[0]
    ensures SortBy(PyMemberKey, [a, b]) == [b, a]
  {
    assert [a, b][1..] == [b] && [b][1..] == [];
    assert SortBy(PyMemberKey, [b]) == [b];
    assert PyMemberKey(a)[0] == a.key && PyMemberKey(b)[0] == b.key;
    assert Insert(PyMemberKey, a, [b]) == [b] + Insert(PyMemberKey, a, []);
  }

  lemma PairTree(a: PyMember, b: PyMember)
    requires |a.key| > 0 && |b.key| > 0 && b.key[0] < a.key[0]
    ensures PyTree(PyDict([a, b])) == TObject([Entry(Utf16(b.key), PyTree(b.value)), Entry(Utf16(a.key), PyTree(a.value))])
  {
    SortTwo(a, b);
    var v := PyDict([a, b]);
    PySortKeepsMembers(v.members);
    assert PyTree(v).entries == PyEntries(v, [b, a]);
  }

  lemma PairPrints(a: PyMember, b: PyMember, ea: Entry, eb: Entry)
    requires |a.key| > 0 && |b.key| > 0 && b.key[0] < a.key[0]
    requires ea == Entry(Utf16(a.key), PyTree(a.value)) && eb == Entry(Utf16(b.key), PyTree(b.value))
    ensures PyText(PyDict([a, b])) == Print(TObject([eb, ea]))
  {
    PairTree(a, b);
    PyTextPrintsTree(PyDict([a, b]));
  }

  lemma ClaimKeys()
    ensures Utf16(USER_ID) == USER_ID && Utf16(EMAIL) == EMAIL
    ensures FromUtf16(USER_ID) == USER_ID && FromUtf16(EMAIL) == EMAIL
    ensures USER_ID != EMAIL && EMAIL[0] < USER_ID[0]
  {
    AsciiUnits(USER_ID);
    AsciiUnits(EMAIL);
    assert EMAIL[0] < USER_ID[0];
  }

  lemma ClaimPrints(claim: Claim)
    ensures PyText(ClaimJson(claim)) == Print(ClaimTree(claim))
  {
    ClaimKeys();
    StringTree(claim.userId);
    StringTree(claim.email);
    var a, b := PyMember(USER_ID, PyStr(claim.userId)), PyMember(EMAIL, PyStr(claim.email));
    var ea, eb := Entry(USER_ID, TString(Utf16(claim.userId))), Entry(EMAIL, TString(Utf16(claim.email)));
    PairPrints(a, b, ea, eb);
  }

  lemma StringTree(s: Points)
    ensures PyTree(PyStr(s)) == TString(Utf16(s)) && FromTree(TString(Utf16(s))) == PyStr(FromUtf16(Utf16(s)))
  {}

  lemma FromPair(a: Entry, b: Entry, x: PyMember, y: PyMember)
    requires x == PyMember(FromUtf16(a.key), FromTree(a.value)) && y == PyMember(FromUtf16(b.key), FromTree(b.value))
    ensures FromTree(TObject([a, b])) == PyDict([x, y])
  {
    assert FromTree(TObject([a, b])).members == [x, y];
  }

  lemma GetFromPair(x: PyMember, y: PyMember, key: Points)
    requires x.key != y.key && (key == x.key || key == y.key) && x.value.PyStr? && y.value.PyStr?
    ensures GetString([x, y], key) == Some(if key == x.key then x.value.s else y.value.s)
  {
    assert [x, y][..1] == [x] && [x][..0] == [];
  }

  lemma ClaimOfPair(x: PyMember, y: PyMember)
    requires x.key == EMAIL && y.key == USER_ID && x.value.PyStr? && y.value.PyStr?
    ensures ClaimOf(PyDict([x, y])) == Verified(Claim(y.value.s, x.value.s))
  {
    ClaimKeys();
    GetFromPair(x, y, USER_ID);
    GetFromPair(x, y, EMAIL);
  }

  lemma FromClaimTree(claim: Claim)
    ensures ClaimOf(FromTree(ClaimTree(claim))) == Verified(Joined(claim))
  {
    ClaimKeys();
    StringTree(claim.userId);
    StringTree(claim.email);
    var x, y := PyMember(EMAIL, PyStr(Joined(claim).email)), PyMember(USER_ID, PyStr(Joined(claim).userId));
    FromPair(Entry(EMAIL, TString(Utf16(claim.email))), Entry(USER_ID, TString(Utf16(claim.userId))), x, y);
    ClaimOfPair(x, y);
  }

  lemma ReadPayloadBack(lib: Library, claim: Claim)
    ensures ReadPayload(lib, PayloadSegment(claim)) == Some(FromTree(ClaimTree(claim)))
  {
    var text := PyText(ClaimJson(claim));
    PyTextIsAscii(ClaimJson(claim));
    ClaimPrints(claim);
    DecodeEncode(AsciiBytes(text), lib.looseBase64);
    AsciiRoundTrip(text);
    DecodePrint(ClaimTree(claim));
  }

  /** The claim up to and including the whole second of expiry, an expired token after it. */
  function VerdictAt(claim: Claim, expiry: int, now: int): Verdict {
    if now <= WholeSeconds(expiry) * SECOND then Verified(Joined(claim)) else TokenExpired
  }

  lemma VerifySegments(lib: Library, signer: Signer, token: string, now: int, p: string, e: string, s: string, x: int, payload: PyJson)
    requires Split(token) == [p, e, s] && Sign(lib, signer, p, e) == Some(s)
    requires ReadExpiry(lib, e) == Some(x) && ReadPayload(lib, p) == Some(payload)
    ensures Verify(lib, signer, token, now) == if now > x * SECOND then TokenExpired else ClaimOf(payload)
  {
    EncodeAlphabet(lib.hmac(signer.secret, AsciiBytes(SignedPortion(p, e))));
  }

  /** Verifying undoes issuing, whatever the library does with other texts. */
  lemma TokenRoundTrip(lib: Library, signer: Signer, claim: Claim, expiry: int, now: int)
    ensures Verify(lib, signer, Token(lib, signer, claim, expiry), now) == VerdictAt(claim, expiry, now)
  {
    IssuedTokenSplits(lib, signer, claim, expiry);
    ReadExpiryBack(lib, expiry);
    ReadPayloadBack(lib, claim);
    FromClaimTree(claim);
    var p, e := PayloadSegment(claim), ExpirySegment(expiry);
    VerifySegments(lib, signer, Token(lib, signer, claim, expiry), now, p, e, Sign(lib, signer, p, e).value,
                   WholeSeconds(expiry), FromTree(ClaimTree(claim)));
  }

  /** The issuing call: a ttl that leaves the range of datetimes issues nothing, and whatever it
      issues verifies until the whole second of now + ttl. */
  function Issue(lib: Library, signer: Signer, claim: Claim, ttl: int, now: int): (r: Issuance)
    ensures r.Issued? <==> Representable(now + ttl)
    ensures r.Issued? ==> Honours(lib, signer, r.token, claim, now + ttl)
  {
    if Representable(now + ttl) then Issued(HonouredToken(lib, signer, claim, now + ttl)) else OutOfRange
  }

  function HonouredToken(lib: Library, signer: Signer, claim: Claim, expiry: int): (token: string)
    ensures Honours(lib, signer, token, claim, expiry)
  {
    TokenVerdicts(lib, signer, claim, expiry);
    Token(lib, signer, claim, expiry)
  }

  /** At every instant the token verifies as it should. */
  ghost predicate Honours(lib: Library, signer: Signer, token: string, claim: Claim, expiry: int) {
    forall later :: Verify(lib, signer, token, later) == VerdictAt(claim, expiry, later)
  }

  lemma TokenVerdicts(lib: Library, signer: Signer, claim: Claim, expiry: int)
    ensures Honours(lib, signer, Token(lib, signer, claim, expiry), claim, expiry)
  {
    forall later ensures Verify(lib, signer, Token(lib, signer, claim, expiry), later) == VerdictAt(claim, expiry, later) {
      TokenRoundTrip(lib, signer, claim, expiry, later);
    }
  }

  /** The claim read back is the claim issued exactly when no string in it has a split pair. */
  lemma ClaimSurvives(claim: Claim)
    ensures Joined(claim) == claim <==> !HasSplitPair(claim.userId) && !HasSplitPair(claim.email)
  {
    Utf16RoundTrip(claim.userId);
    Utf16RoundTrip(claim.email);
  }

  ghost predicate AcceptedAt(lib: Library, signer: Signer, token: string, now: int) {
    Verify(lib, signer, token, now).Verified?
  }

  /** Accepted until one second before the instant at the least and never from one second after
      it; and never after it at all exactly when it is not before the epoch or is a whole second. */
  ghost predicate LivesUntil(lib: Library, signer: Signer, token: string, expiry: int) {
    && (forall t :: t <= expiry - SECOND ==> AcceptedAt(lib, signer, token, t))
    && (forall t :: t >= expiry + SECOND ==> !AcceptedAt(lib, signer, token, t))
    && ((forall t :: t > expiry ==> !AcceptedAt(lib, signer, token, t)) <==> expiry >= 0 || expiry % SECOND == 0)
  }

  /** The lifetime of a token ends at its expiry instant, in that sense. */
  lemma TokenLifetime(lib: Library, signer: Signer, claim: Claim, expiry: int)
    ensures LivesUntil(lib, signer, Token(lib, signer, claim, expiry), expiry)
  {
    AcceptedUntil(lib, signer, claim, expiry);
    LifetimeOf(lib, signer, Token(lib, signer, claim, expiry), expiry);
  }

  lemma LifetimeOf(lib: Library, signer: Signer, token: string, expiry: int)
    requires forall t :: AcceptedAt(lib, signer, token, t) <==> t <= WholeSeconds(expiry) * SECOND
    ensures LivesUntil(lib, signer, token, expiry)
  {
    var last := WholeSeconds(expiry) * SECOND;
    WholeSecondsNear(expiry);
    assert AcceptedAt(lib, signer, token, last);
  }

  lemma AcceptedUntil(lib: Library, signer: Signer, claim: Claim, expiry: int)
    ensures forall t :: AcceptedAt(lib, signer, Token(lib, signer, claim, expiry), t) <==> t <= WholeSeconds(expiry) * SECOND
  {
    forall t ensures AcceptedAt(lib, signer, Token(lib, signer, claim, expiry), t) <==> t <= WholeSeconds(expiry) * SECOND {
      TokenRoundTrip(lib, signer, claim, expiry, t);
    }
  }

  lemma WholeSecondsNear(instant: int)
    ensures instant - SECOND < WholeSeconds(instant) * SECOND < instant + SECOND
    ensures WholeSeconds(instant) * SECOND <= instant <==> instant >= 0 || instant % SECOND == 0
  {}

  /** Two issued tokens sign the same portion exactly when they vouch for the same claim until
      the same second: a token for one address is not a token for another. */
  lemma SignedPortionBindsClaim(c1: Claim, x1: int, c2: Claim, x2: int)
    ensures SignedPortion(PayloadSegment(c1), ExpirySegment(x1)) == SignedPortion(PayloadSegment(c2), ExpirySegment(x2))
            <==> Utf16(c1.userId) == Utf16(c2.userId) && Utf16(c1.email) == Utf16(c2.email)
                 && WholeSeconds(x1) == WholeSeconds(x2)
  {
    var p1, e1, p2, e2 := PayloadSegment(c1), ExpirySegment(x1), PayloadSegment(c2), ExpirySegment(x2);
    ClaimPrints(c1);
    ClaimPrints(c2);
    if SignedPortion(p1, e1) == SignedPortion(p2, e2) {
      SegmentsAreAscii(c1, x1);
      SegmentsAreAscii(c2, x2);
      SplitSegment(p1, e1);
      SplitSegment(p2, e2);
      SplitSegment(e1, "");
      SplitSegment(e2, "");
      assert [p1] + [e1] == [p2] + [e2];
      assert p1 == ([p1] + [e1])[0] && e1 == ([p1] + [e1])[1];
      SamePayload(c1, c2);
      SameExpiry(x1, x2);
    }
  }

  lemma SamePayload(c1: Claim, c2: Claim)
    requires PayloadSegment(c1) == PayloadSegment(c2)
    ensures Utf16(c1.userId) == Utf16(c2.userId) && Utf16(c1.email) == Utf16(c2.email)
  {
    var none: string -> Option<Bytes> := _ => None;
    PyTextIsAscii(ClaimJson(c1));
    PyTextIsAscii(ClaimJson(c2));
    var t1, t2 := PyText(ClaimJson(c1)), PyText(ClaimJson(c2));
    DecodeEncode(AsciiBytes(t1), none);
    DecodeEncode(AsciiBytes(t2), none);
    AsciiRoundTrip(t1);
    AsciiRoundTrip(t2);
    ClaimPrints(c1);
    ClaimPrints(c2);
    DecodePrint(ClaimTree(c1));
    DecodePrint(ClaimTree(c2));
    assert ClaimTree(c1).entries[0] == ClaimTree(c2).entries[0] && ClaimTree(c1).entries[1] == ClaimTree(c2).entries[1];
  }

  lemma SameExpiry(x1: int, x2: int)
    requires ExpirySegment(x1) == ExpirySegment(x2)
    ensures WholeSeconds(x1) == WholeSeconds(x2)
  {
    var lib := Library((_, _) => [], _ => None, _ => None, _ => None);
    ReadExpiryBack(lib, x1);
    ReadExpiryBack(lib, x2);
  }

  // ---- What verifying admits -----------------------------------------------------------------

  /** Only a genuine token gets past the signature: it is the signed portion followed by the
      signature of that portion, so no other text with the same portion is accepted, and the
      accepted claim and expiry are the ones in the segments. */
  lemma OnlySignedTokensPass(lib: Library, signer: Signer, token: string, now: int)
    requires var v := Verify(lib, signer, token, now); v.Verified? || v.TokenExpired?
    ensures |Split(token)| == 3
    ensures var p, e := Split(token)[0], Split(token)[1];
            && Sign(lib, signer, p, e).Some?
            && token == SignedPortion(p, e) + "." + Sign(lib, signer, p, e).value
            && ReadExpiry(lib, e).Some? && ReadPayload(lib, p).Some?
            && Verify(lib, signer, token, now)
               == if now > ReadExpiry(lib, e).value * SECOND then TokenExpired else ClaimOf(ReadPayload(lib, p).value)
  {
    var parts := Split(token);
    assert parts == [parts[0], parts[1], parts[2]];
    ThreeSegments(token, parts[0], parts[1], parts[2]);
  }

  /** Another text over an issued token's signed portion never passes. */
  lemma AlteredSignatureFails(lib: Library, signer: Signer, claim: Claim, expiry: int, token: string, now: int)
    requires |Split(token)| == 3
    requires Split(token)[0] == PayloadSegment(claim) && Split(token)[1] == ExpirySegment(expiry)
    requires token != Token(lib, signer, claim, expiry)
    ensures var v := Verify(lib, signer, token, now); v.TokenInvalid? || v.EncodingError?
  {
    var v := Verify(lib, signer, token, now);
    if v.Verified? || v.TokenExpired? {
      OnlySignedTokensPass(lib, signer, token, now);
    }
  }

  /** An error other than the two documented ones escapes exactly for a token of three segments
      with a character outside ASCII. */
  lemma UndocumentedErrorIffNotAscii(lib: Library, signer: Signer, token: string, now: int)
    ensures Verify(lib, signer, token, now).EncodingError? <==> |Split(token)| == 3 && !IsAscii(token)
  {
    var parts := Split(token);
    if |parts| == 3 {
      var a, b, c := parts[0], parts[1], parts[2];
      assert parts == [a, b, c];
      ThreeSegments(token, a, b, c);
      AsciiConcat(a, ".");
      AsciiConcat(a + ".", b);
      AsciiConcat(a + "." + b, ".");
      AsciiConcat(a + "." + b + ".", c);
      if IsAscii(a + "." + b) && IsAscii(c) && ReadExpiry(lib, b).Some? && ReadPayload(lib, a).Some? {
        assert !ClaimOf(ReadPayload(lib, a).value).EncodingError?;
      }
    }
  }

  lemma AsciiConcat(a: string, b: string)
    ensures IsAscii(a + b) <==> IsAscii(a) && IsAscii(b)
  {
    assert forall i :: 0 <= i < |a| ==> (a + b)[i] == a[i];
    assert forall i :: 0 <= i < |b| ==> (a + b)[|a| + i] == b[i];
  }

  // ---- Witnesses ------------------------------------------------------------------------------

  /** One character outside ASCII and two dots are enough for an undocumented error. */
  lemma NonAsciiTokenRaises(lib: Library, signer: Signer, now: int)
    ensures Verify(lib, signer, "\U{E9}..", now).EncodingError?
  {
    var token := "\U{E9}..";
    assert token == "\U{E9}" + "." + "" + "." + "";
    ThreeSegments(token, "\U{E9}", "", "");
    assert !IsAscii(token) by { assert token[0] as int == 0xE9; }
    UndocumentedErrorIffNotAscii(lib, signer, token, now);
  }

  /** A token that expires half a second before the epoch is still accepted at the epoch. */
  lemma PreEpochTokenOutlivesItsExpiry(lib: Library, signer: Signer, claim: Claim)
    ensures AcceptedAt(lib, signer, Token(lib, signer, claim, -500_000), 0)
  {
    assert WholeSeconds(-500_000) == 0;
    AcceptedUntil(lib, signer, claim, -500_000);
  }

  /** A user id of two surrogates comes back as one character. */
  lemma SplitPairIsJoined(email: Points)
    ensures Joined(Claim([0xD800, 0xDC00], email)).userId == [0x10000]
  {
    var id: Points := [0xD800, 0xDC00];
    assert id[1..] == [0xDC00] && id[1..][1..] == [];
    assert Utf16([0xDC00]) == [0xDC00] + Utf16([]);
    assert Utf16(id) == [0xD800] + ([0xDC00] + []) == [0xD800, 0xDC00];
    var us: Units := [0xD800, 0xDC00];
    assert us[2..] == [] && FromUtf16([]) == [];
    assert FromUtf16(us) == [0x10000] + FromUtf16(us[2..]);
  }
}
