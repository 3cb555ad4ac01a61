/** The formats that leave the system, character by character: string escapes of canonical JSON,
    base64url of tokens, the printed uuid, and the double that a tie rounds to. */
module WireFormats {
  import opened Sorting
  import opened Wrappers
  import opened Base64
  import opened CanonicalJson
  import opened Doubles
  import opened Uuids

  const HEX := "0123456789abcdef"

  // ---- String escapes -----------------------------------------------------------------------------

  /** The character after the backslash of the seven short escapes. */
  const SHORT := map[0x22 := '"', 0x5c := '\\', 0x08 := 'b', 0x09 := 't', 0x0a := 'n', 0x0c := 'f', 0x0d := 'r']

  /** The value of four hexadecimal digits. */
  predicate SpellsHex(s: string, u: Unit) {
    exists a, b, c, d :: 0 <= a < 16 && 0 <= b < 16 && 0 <= c < 16 && 0 <= d < 16
                         && s == [HEX[a], HEX[b], HEX[c], HEX[d]] && u as int == 4096 * a + 256 * b + 16 * c + d
  }

  /** Seven characters have short escapes, every other printable ASCII character stands for
      itself, and the rest are spelled by their four lower-case digits. */
  lemma EscapesAre(u: Unit)
    ensures u as int in SHORT ==> EscapeUnit(u) == ['\\', SHORT[u as int]]
    ensures u as int !in SHORT && 0x20 <= u as int <= 0x7e ==> |EscapeUnit(u)| == 1 && EscapeUnit(u)[0] as int == u as int
    ensures u as int !in SHORT && !(0x20 <= u as int <= 0x7e) ==>
              |EscapeUnit(u)| == 6 && EscapeUnit(u)[..2] == "\\u" && SpellsHex(EscapeUnit(u)[2..], u)
  {
    if u as int !in SHORT && !(0x20 <= u as int <= 0x7e) {
      assert EscapeUnit(u) == "\\u" + Hex4(u);
      assert EscapeUnit(u)[2..] == Hex4(u);
      Hex4Spells(u);
    }
  }

  lemma FourDigits(u: int)
    requires 0 <= u < 0x10000
    ensures u == 4096 * (u / 4096) + 256 * (u / 256 % 16) + 16 * (u / 16 % 16) + u % 16
  {
    var p, q := u / 16, u / 256;
    assert q == p / 16 && u / 4096 == q / 16;
    assert u == 16 * p + u % 16 && p == 16 * q + p % 16 && q == 16 * (q / 16) + q % 16;
  }

  lemma SpelledBy(s: string, u: Unit, a: int, b: int, c: int, d: int)
    requires 0 <= a < 16 && 0 <= b < 16 && 0 <= c < 16 && 0 <= d < 16
    requires s == [HEX[a], HEX[b], HEX[c], HEX[d]] && u as int == 4096 * a + 256 * b + 16 * c + d
    ensures SpellsHex(s, u)
  {}

  lemma Hex4Spells(u: Unit)
    ensures SpellsHex(Hex4(u), u)
  {
    var n := u as int;
    FourDigits(n);
    SpelledBy(Hex4(u), u, n / 4096, n / 256 % 16, n / 16 % 16, n % 16);
  }

  /** The words, and the punctuation of arrays. */
  lemma WordsAre()
    ensures CanonicalJson.Encode(JNull) == CanonicalJson.Encode(JUndefined) == Some("null")
    ensures CanonicalJson.Encode(JBool(true)) == Some("true") && CanonicalJson.Encode(JBool(false)) == Some("false")
    ensures Print(TNull) == "null" && Print(TBool(true)) == "true" && Print(TBool(false)) == "false"
    ensures Print(TArray([])) == "[]" && Print(TArray([TBool(true), TNull])) == "[true,null]"
  {
    assert [TBool(true), TNull][1..] == [TNull];
    assert PrintItems([TNull]) == "null";
    assert PrintItems([TBool(true), TNull]) == "true,null";
  }

  // ---- Base64url -------------------------------------------------------------------------------------

  function Letters(first: char, last: char): string
    requires first <= last <= 'z'
  {
    seq(last as int - first as int + 1, i requires 0 <= i <= last as int - first as int => (first as int + i) as char)
  }

  function UrlSafe(): string { Letters('A', 'Z') + Letters('a', 'z') + Letters('0', '9') + "-_" }

  function ByteAt(raw: Bytes, n: nat): int { if n < |raw| then raw[n] else 0 }
  function ValueAt(v: seq<Sextet>, n: nat): int { if n < |v| then v[n] else 0 }

  /** The number of three bytes, and the number of four base-64 digits; missing ones are 0. */
  function OfBytes(raw: Bytes, n: nat): int { 65536 * ByteAt(raw, n) + 256 * ByteAt(raw, n + 1) + ByteAt(raw, n + 2) }
  function OfDigits(v: seq<Sextet>, n: nat): int {
    262144 * ValueAt(v, n) + 4096 * ValueAt(v, n + 1) + 64 * ValueAt(v, n + 2) + ValueAt(v, n + 3)
  }

  lemma GroupNumber(x: Byte, y: Byte, z: Byte)
    ensures 65536 * x + 256 * y + z
            == 262144 * FirstSextet(x) + 4096 * SecondSextet(x, y) + 64 * ThirdSextet(y, z) + FourthSextet(z)
  {}

  lemma OneByteNumber(x: Byte)
    ensures 65536 * x == 262144 * FirstSextet(x) + 4096 * SecondSextet(x, 0)
  {}

  lemma TwoByteNumber(x: Byte, y: Byte)
    ensures 65536 * x + 256 * y == 262144 * FirstSextet(x) + 4096 * SecondSextet(x, y) + 64 * ThirdSextet(y, 0)
  {}

  lemma FirstOfOne(raw: Bytes)
    requires |raw| == 1
    ensures OfDigits(ToSextets(raw), 0) == OfBytes(raw, 0)
  {
    OneByteNumber(raw[0]);
    assert ToSextets(raw) == [FirstSextet(raw[0]), SecondSextet(raw[0], 0)];
  }

  lemma FirstOfTwo(raw: Bytes)
    requires |raw| == 2
    ensures OfDigits(ToSextets(raw), 0) == OfBytes(raw, 0)
  {
    TwoByteNumber(raw[0], raw[1]);
    assert ToSextets(raw) == [FirstSextet(raw[0]), SecondSextet(raw[0], raw[1]), ThirdSextet(raw[1], 0)];
  }

  lemma FirstOfMany(raw: Bytes)
    requires |raw| >= 3
    ensures OfDigits(ToSextets(raw), 0) == OfBytes(raw, 0)
  {
    var a, b, c, d := FirstSextet(raw[0]), SecondSextet(raw[0], raw[1]), ThirdSextet(raw[1], raw[2]), FourthSextet(raw[2]);
    GroupNumber(raw[0], raw[1], raw[2]);
    StartsWith(a, b, c, d, ToSextets(raw[3..]));
  }

  lemma StartsWith(a: Sextet, b: Sextet, c: Sextet, d: Sextet, rest: seq<Sextet>)
    ensures OfDigits([a, b, c, d] + rest, 0) == 262144 * a + 4096 * b + 64 * c + d
  {}

  lemma GroupsOff(raw: Bytes)
    requires |raw| > 3
    ensures |ToSextets(raw)| == 4 + |ToSextets(raw[3..])| && ToSextets(raw)[4..] == ToSextets(raw[3..])
  {}

  lemma OfDigitsOff(v: seq<Sextet>, n: nat)
    requires |v| >= 4
    ensures OfDigits(v, n + 4) == OfDigits(v[4..], n)
  {}

  lemma OfBytesOff(raw: Bytes, n: nat)
    requires |raw| >= 3
    ensures OfBytes(raw, n + 3) == OfBytes(raw[3..], n)
  {}

  lemma NumbersOff(raw: Bytes, digit: nat, byte: nat)
    requires |raw| > 3
    ensures OfDigits(ToSextets(raw), digit + 4) == OfDigits(ToSextets(raw[3..]), digit)
    ensures OfBytes(raw, byte + 3) == OfBytes(raw[3..], byte)
  {
    GroupsOff(raw);
    OfDigitsOff(ToSextets(raw), digit);
    OfBytesOff(raw, byte);
  }

  lemma FirstGroup(raw: Bytes)
    requires |raw| > 0
    ensures OfDigits(ToSextets(raw), 0) == OfBytes(raw, 0)
  {
    if |raw| == 1 { FirstOfOne(raw); } else if |raw| == 2 { FirstOfTwo(raw); } else { FirstOfMany(raw); }
  }

  lemma PastTheEnd(raw: Bytes, i: nat)
    requires |raw| <= 3 && (i > 0 || |raw| == 0)
    ensures OfDigits(ToSextets(raw), 4 * i) == 0 == OfBytes(raw, 3 * i)
  {
    assert |ToSextets(raw)| <= 4 * i;
  }

  lemma {:induction false} SameNumbers(raw: Bytes, i: nat)
    ensures OfDigits(ToSextets(raw), 4 * i) == OfBytes(raw, 3 * i)
  {
    if |raw| > 0 && i == 0 {
      FirstGroup(raw);
    } else if |raw| > 3 {
      SameNumbers(raw[3..], i - 1);
      NumbersOff(raw, 4 * (i - 1), 3 * (i - 1));
    } else {
      PastTheEnd(raw, i);
    }
  }

  lemma {:induction false} DigitCount(raw: Bytes)
    ensures |ToSextets(raw)| == (8 * |raw| + 5) / 6
  {
    if |raw| > 3 {
      DigitCount(raw[3..]);
      GroupsOff(raw);
    } else if |raw| == 3 {
      assert raw[3..] == [];
    }
  }

  lemma SymbolsAre(v: Sextet)
    ensures |UrlSafe()| == 64 && Symbol(v) == UrlSafe()[v]
  {}

  /** The text is digits of the URL-safe alphabet, as many as the bits need; each three bytes and
      the four digits in their place are one number. */
  lemma EncodesNumbers(raw: Bytes) returns (v: seq<Sextet>)
    ensures |UrlSafe()| == 64 && |v| == |Base64.Encode(raw)| == (8 * |raw| + 5) / 6
    ensures forall k :: 0 <= k < |v| ==> Base64.Encode(raw)[k] == UrlSafe()[v[k]]
    ensures forall i: nat :: OfDigits(v, 4 * i) == OfBytes(raw, 3 * i)
  {
    v := ToSextets(raw);
    DigitCount(raw);
    forall i: nat ensures OfDigits(v, 4 * i) == OfBytes(raw, 3 * i) {
      SameNumbers(raw, i);
    }
    forall k | 0 <= k < |v| ensures Base64.Encode(raw)[k] == UrlSafe()[v[k]] {
      SymbolsAre(v[k]);
    }
  }

  // ---- Printed uuids -----------------------------------------------------------------------------------

  predicate AreDigits(digits: seq<int>) {
    forall i :: 0 <= i < |digits| ==> 0 <= digits[i] < 16
  }

  function Hexes(digits: seq<int>): Text
    requires AreDigits(digits)
  {
    seq(|digits|, i requires 0 <= i < |digits| => HEX[digits[i]] as int)
  }

  lemma DigitIsHex(d: int)
    requires 0 <= d < 16
    ensures Digit(d) == HEX[d] as int
  {}

  lemma HexesCons(x: int, y: int, rest: seq<int>)
    requires 0 <= x < 16 && 0 <= y < 16 && AreDigits(rest)
    ensures Hexes([x, y] + rest) == [Digit(x), Digit(y)] + Hexes(rest)
  {
    DigitIsHex(x);
    DigitIsHex(y);
  }

  lemma PairsStep(digits: seq<int>, i: nat)
    requires |digits| >= 2
    ensures PairsText(digits, i) == [Digit(digits[0]), Digit(digits[1])] + (Hyphen(i) + PairsText(digits[2..], i + 1))
  {}

  lemma AfterPair(x: int, y: int, run: seq<int>, none: Text, tail: Text)
    requires 0 <= x < 16 && 0 <= y < 16 && AreDigits(run) && none == []
    ensures [Digit(x), Digit(y)] + (none + (Hexes(run) + tail)) == Hexes([x, y] + run) + tail
  {
    HexesCons(x, y, run);
    assert none + (Hexes(run) + tail) == Hexes(run) + tail;
    Sorting.Regroup([Digit(x), Digit(y)], Hexes(run), tail);
  }

  lemma LastPair(run: seq<int>, rest: seq<int>, i: nat)
    requires AreDigits(run) && |run| == 2
    ensures PairsText(run + rest, i) == Hexes(run) + (Hyphen(i) + PairsText(rest, i + 1))
  {
    PairsStep(run + rest, i);
    HexesCons(run[0], run[1], []);
    assert (run + rest)[2..] == rest && run == [run[0], run[1]] + [] && Hexes([]) == [];
  }

  lemma OnePairOff(run: seq<int>, rest: seq<int>, i: nat)
    requires |run| >= 2
    ensures run == [run[0], run[1]] + run[2..]
    ensures PairsText(run + rest, i) == [Digit(run[0]), Digit(run[1])] + (Hyphen(i) + PairsText(run[2..] + rest, i + 1))
  {
    PairsStep(run + rest, i);
    assert (run + rest)[2..] == run[2..] + rest;
  }

  /** A run of k pairs up to the next hyphen. */
  lemma {:induction false} PairsRun(run: seq<int>, rest: seq<int>, i: nat, k: nat)
    requires AreDigits(run) && k > 0 && |run| == 2 * k
    requires forall j :: i <= j < i + k - 1 ==> Hyphen(j) == []
    ensures PairsText(run + rest, i) == Hexes(run) + (Hyphen(i + k - 1) + PairsText(rest, i + k))
    decreases k
  {
    if k == 1 {
      LastPair(run, rest, i);
    } else {
      var more := run[2..];
      OnePairOff(run, rest, i);
      PairsRun(more, rest, i + 1, k - 1);
      AfterPair(run[0], run[1], more, Hyphen(i), Hyphen(i + k - 1) + PairsText(rest, i + k));
    }
  }

  lemma Parts(d: seq<int>, from: nat, to: nat)
    requires from <= to <= |d|
    ensures d[from..] == d[from..to] + d[to..]
  {}

  lemma FirstRuns(d: seq<int>)
    requires AreDigits(d) && |d| == 32
    ensures PairsText(d[0..], 0) == Hexes(d[0..8]) + (Hyphen(3) + PairsText(d[8..], 4))
    ensures PairsText(d[8..], 4) == Hexes(d[8..12]) + (Hyphen(5) + PairsText(d[12..], 6))
  {
    Parts(d, 0, 8);
    PairsRun(d[0..8], d[8..], 0, 4);
    Parts(d, 8, 12);
    PairsRun(d[8..12], d[12..], 4, 2);
  }

  lemma MiddleRuns(d: seq<int>)
    requires AreDigits(d) && |d| == 32
    ensures PairsText(d[12..], 6) == Hexes(d[12..16]) + (Hyphen(7) + PairsText(d[16..], 8))
    ensures PairsText(d[16..], 8) == Hexes(d[16..20]) + (Hyphen(9) + PairsText(d[20..], 10))
  {
    Parts(d, 12, 16);
    PairsRun(d[12..16], d[16..], 6, 2);
    Parts(d, 16, 20);
    PairsRun(d[16..20], d[20..], 8, 2);
  }

  lemma LastRun(d: seq<int>)
    requires AreDigits(d) && |d| == 32
    ensures PairsText(d[20..], 10) == Hexes(d[20..32])
  {
    Parts(d, 20, 32);
    PairsRun(d[20..32], d[32..], 10, 6);
    assert PairsText(d[32..], 16) == [] && Hyphen(15) == [];
  }

  /** A uuid prints as 32 lower-case digits with hyphens after the 8th, 12th, 16th and 20th. */
  lemma UuidTextIs(u: Uuid)
    requires IsUuid(u)
    ensures AreDigits(u.digits)
    ensures UuidText(u) == Hexes(u.digits[0..8]) + (Ascii("-") + (Hexes(u.digits[8..12]) + (Ascii("-") + (Hexes(u.digits[12..16])
                           + (Ascii("-") + (Hexes(u.digits[16..20]) + (Ascii("-") + Hexes(u.digits[20..32]))))))))
  {
    FirstRuns(u.digits);
    MiddleRuns(u.digits);
    LastRun(u.digits);
    assert u.digits[0..] == u.digits && Ascii("-") == [HYPHEN];
  }

  // ---- Ties ----------------------------------------------------------------------------------------------

  lemma TieBelowTwo54(m: nat, d: nat)
    requires m < TWO54 && d <= TWO55 && (d < TWO55 ==> NearestBelowTwo55(d) == d)
    requires var r := NearestBelowTwo55(m); d != r && Distance(d, m) == Distance(r, m)
    ensures var r := NearestBelowTwo55(m); Distance(d, r) == 2 && r == 4 * (r / 4)
  {}

  lemma NoTieAcross(m: nat, d: nat)
    requires d < TWO54 <= m < TWO55 && NearestBelowTwo55(d) == d && d != NearestBelowTwo55(m)
    ensures Distance(d, m) != Distance(NearestBelowTwo55(m), m)
  {}

  lemma FoursAround(m: nat, r: nat, d: nat)
    requires r % 4 == 0 && d % 4 == 0 && d != r && Distance(d, m) == Distance(r, m) <= 2
    ensures m == (r + d) / 2 && m % 4 == 2 && Distance(d, r) == 4
  {}

  lemma TieBelowTwo55(m: nat, d: nat)
    requires TWO54 <= m < TWO55 && d <= TWO55 && (d < TWO55 ==> NearestBelowTwo55(d) == d)
    requires var r := NearestBelowTwo55(m); d != r && Distance(d, m) == Distance(r, m)
    ensures var r := NearestBelowTwo55(m); Distance(d, r) == 4 && r == 8 * (r / 8)
  {
    if d < TWO54 {
      NoTieAcross(m, d);
    } else {
      MonotoneBelowTwo55(m, m);
      if d < TWO55 { MonotoneBelowTwo55(d, d); }
      FoursAround(m, NearestBelowTwo55(m), d);
    }
  }

  lemma Midpoint(a: nat, b: nat, m: nat)
    ensures a != b ==> (Distance(a, m) == Distance(b, m) <==> 2 * m == a + b)
  {}

  lemma JamOfFour(n: nat)
    ensures Jam(4 * n) == 2 * n
  {}

  lemma MidpointIsEven(near: nat, other: nat, m: nat)
    requires near % 4 == 0 && other % 4 == 0 && near != other && Distance(2 * near, m) == Distance(2 * other, m)
    ensures Distance(near, Jam(m)) == Distance(other, Jam(m))
  {
    var k, l := near / 4, other / 4;
    Midpoint(8 * k, 8 * l, m);
    JamOfFour(k + l);
    Midpoint(4 * k, 4 * l, 2 * (k + l));
  }

  lemma TwiceBoth(near: nat, other: nat, q: nat)
    requires near == 2 * (Distance(other, near) * q)
    ensures 2 * near == 2 * (Distance(2 * other, 2 * near) * q)
  {
    var g := Distance(other, near);
    assert Distance(2 * other, 2 * near) == 2 * g;
    assert (2 * g) * q == 2 * (g * q);
  }

  /** Of two doubles equally near, rounding takes the one with an even significand: a multiple of
      twice the distance between the two. */
  lemma {:induction false} TieIsEven(m: nat, d: nat) returns (q: nat)
    requires NearestNat(d) == d && d != NearestNat(m) && Distance(d, m) == Distance(NearestNat(m), m)
    ensures NearestNat(m) == 2 * (Distance(d, NearestNat(m)) * q)
    decreases m
  {
    Unfold(m);
    Unfold(d);
    if m < TWO55 {
      NearestKeepsPowers(TWO55);
      NoDoubleIsNearer(m, TWO55);
      MonotoneBelowTwo55(m, m);
      if m < TWO54 {
        TieBelowTwo54(m, d);
        q := NearestNat(m) / 4;
      } else {
        TieBelowTwo55(m, d);
        q := NearestNat(m) / 8;
      }
    } else {
      NearestKeepsPowers(m);
      NearestKeepsPowers(TWO55);
      NoDoubleIsNearer(m, TWO55);
      var near, other := NearestNat(Jam(m)), NearestNat(Jam(d));
      MultipleOfFour(Jam(d));
      MultipleOfFour(Jam(m));
      NearestAgain(Jam(d));
      MidpointIsEven(near, other, m);
      q := TieIsEven(Jam(m), other);
      TwiceBoth(near, other, q);
    }
  }
}
