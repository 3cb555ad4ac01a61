/** Unpadded base64url text of bytes and the lenient decoder that reads it back. */
module Base64 {
  import opened Wrappers

  type Byte = b: int | 0 <= b < 256
  type Bytes = seq<Byte>
  type Sextet = v: int | 0 <= v < 64

  function Symbol(v: Sextet): char {
    if v < 26 then ('A' as int + v) as char
    else if v < 52 then ('a' as int + v - 26) as char
    else if v < 62 then ('0' as int + v - 52) as char
    else if v == 62 then '-'
    else '_'
  }

  /** The decoder maps '-' and '_' to '+' and '/' first, so it takes both spellings. */
  function SymbolValue(c: char): Option<Sextet> {
    if 'A' <= c <= 'Z' then Some(c as int - 'A' as int)
    else if 'a' <= c <= 'z' then Some(c as int - 'a' as int + 26)
    else if '0' <= c <= '9' then Some(c as int - '0' as int + 52)
    else if c == '-' || c == '+' then Some(62)
    else if c == '_' || c == '/' then Some(63)
    else None
  }

  function FirstSextet(x: Byte): Sextet { x as int / 4 }
  function SecondSextet(x: Byte, y: Byte): Sextet { x as int % 4 * 16 + y as int / 16 }
  function ThirdSextet(y: Byte, z: Byte): Sextet { y as int % 16 * 4 + z as int / 64 }
  function FourthSextet(z: Byte): Sextet { z as int % 64 }

  function ToSextets(b: Bytes): seq<Sextet> {
    if |b| == 0 then []
    else if |b| == 1 then [FirstSextet(b[0]), SecondSextet(b[0], 0)]
    else if |b| == 2 then [FirstSextet(b[0]), SecondSextet(b[0], b[1]), ThirdSextet(b[1], 0)]
    else
      [FirstSextet(b[0]), SecondSextet(b[0], b[1]), ThirdSextet(b[1], b[2]), FourthSextet(b[2])] + ToSextets(b[3..])
  }

  function FirstByte(a: Sextet, b: Sextet): Byte { a as int * 4 + b as int / 16 }
  function SecondByte(b: Sextet, c: Sextet): Byte { b as int % 16 * 16 + c as int / 4 }
  function ThirdByte(c: Sextet, d: Sextet): Byte { c as int % 4 * 64 + d as int }

  function FromSextets(v: seq<Sextet>): Bytes
    requires |v| % 4 != 1
  {
    if |v| == 0 then []
    else if |v| == 2 then [FirstByte(v[0], v[1])]
    else if |v| == 3 then [FirstByte(v[0], v[1]), SecondByte(v[1], v[2])]
    else [FirstByte(v[0], v[1]), SecondByte(v[1], v[2]), ThirdByte(v[2], v[3])] + FromSextets(v[4..])
  }

  function Symbols(v: seq<Sextet>): string {
    seq(|v|, i requires 0 <= i < |v| => Symbol(v[i]))
  }

  function Encode(raw: Bytes): string {
    Symbols(ToSextets(raw))
  }

  predicate InAlphabet(s: string) {
    forall i :: 0 <= i < |s| ==> SymbolValue(s[i]).Some?
  }

  function Values(s: string): (v: seq<Sextet>)
    requires InAlphabet(s)
    ensures |v| == |s|
  {
    seq(|s|, i requires 0 <= i < |s| => SymbolValue(s[i]).value)
  }

  /** Decode after padding to a multiple of four. None is the raised ValueError; what the
      lenient decoder makes of characters outside the alphabet is a parameter. */
  function Decode(s: string, otherwise: string -> Option<Bytes>): Option<Bytes> {
    if !InAlphabet(s) then otherwise(s)
    else if |s| % 4 == 1 then None
    else Some(FromSextets(Values(s)))
  }

  lemma SymbolFacts(v: Sextet)
    ensures SymbolValue(Symbol(v)) == Some(v)
    ensures Symbol(v) != '.' && Symbol(v) as int < 128
  {}

  lemma ByteArithmetic(x: Byte, y: Byte, z: Byte)
    ensures var a, b, c, d := FirstSextet(x), SecondSextet(x, y), ThirdSextet(y, z), FourthSextet(z);
            FirstByte(a, b) == x && SecondByte(b, c) == y && ThirdByte(c, d) == z
  {}

  lemma OneByte(x: Byte)
    ensures FromSextets(ToSextets([x])) == [x]
  {
    OneByteArithmetic(x);
    OneByteSextets(x);
    TwoSextets(FirstSextet(x), SecondSextet(x, 0));
  }

  lemma OneByteArithmetic(x: Byte)
    ensures FirstByte(FirstSextet(x), SecondSextet(x, 0)) == x
  {}

  lemma OneByteSextets(x: Byte)
    ensures ToSextets([x]) == [FirstSextet(x), SecondSextet(x, 0)]
  {}

  lemma TwoSextets(a: Sextet, b: Sextet)
    ensures FromSextets([a, b]) == [FirstByte(a, b)]
  {}

  lemma TwoBytes(x: Byte, y: Byte)
    ensures FromSextets(ToSextets([x, y])) == [x, y]
  {
    var a, b, c := FirstSextet(x), SecondSextet(x, y), ThirdSextet(y, 0);
    ByteArithmetic(x, y, 0);
    assert ToSextets([x, y]) == [a, b, c];
    assert FromSextets([a, b, c]) == [FirstByte(a, b), SecondByte(b, c)];
  }

  lemma FourMore(n: nat)
    ensures (n + 4) % 4 == n % 4
  {}

  lemma FourOff(v: seq<Sextet>)
    requires |v| >= 4 && |v| % 4 != 1
    ensures |v[4..]| % 4 != 1
    ensures FromSextets(v) == [FirstByte(v[0], v[1]), SecondByte(v[1], v[2]), ThirdByte(v[2], v[3])] + FromSextets(v[4..])
  {}

  lemma FourThen(a: Sextet, b: Sextet, c: Sextet, d: Sextet, rest: seq<Sextet>, v: seq<Sextet>)
    requires |rest| % 4 != 1 && v == [a, b, c, d] + rest
    ensures |v| % 4 != 1
    ensures FromSextets(v) == [FirstByte(a, b), SecondByte(b, c), ThirdByte(c, d)] + FromSextets(rest)
  {
    assert v[0] == a && v[1] == b && v[2] == c && v[3] == d && v[4..] == rest;
    FourMore(|rest|);
    FourOff(v);
  }

  lemma ThreeOff(b: Bytes)
    requires |b| >= 3
    ensures ToSextets(b)
            == [FirstSextet(b[0]), SecondSextet(b[0], b[1]), ThirdSextet(b[1], b[2]), FourthSextet(b[2])] + ToSextets(b[3..])
  {}

  lemma SextetsOff(b: Bytes)
    requires |b| >= 3 && |ToSextets(b[3..])| % 4 != 1
    ensures |ToSextets(b)| % 4 != 1
    ensures FromSextets(ToSextets(b)) == b[..3] + FromSextets(ToSextets(b[3..]))
  {
    ThreeOff(b);
    FourThen(FirstSextet(b[0]), SecondSextet(b[0], b[1]), ThirdSextet(b[1], b[2]), FourthSextet(b[2]), ToSextets(b[3..]), ToSextets(b));
    ByteArithmetic(b[0], b[1], b[2]);
    assert b[..3] == [b[0], b[1], b[2]];
  }

  lemma {:induction false} SextetsRoundTrip(b: Bytes)
    ensures |ToSextets(b)| % 4 != 1
    ensures FromSextets(ToSextets(b)) == b
  {
    if |b| >= 3 {
      SextetsRoundTrip(b[3..]);
      SextetsOff(b);
      assert b == b[..3] + b[3..];
    } else if |b| == 2 {
      TwoBytes(b[0], b[1]);
      assert b == [b[0], b[1]];
    } else if |b| == 1 {
      OneByte(b[0]);
      assert b == [b[0]];
    }
  }

  /** Encoding is URL-safe text without dots. */
  lemma EncodeAlphabet(raw: Bytes)
    ensures InAlphabet(Encode(raw)) && Values(Encode(raw)) == ToSextets(raw)
    ensures forall i :: 0 <= i < |Encode(raw)| ==> Encode(raw)[i] != '.' && Encode(raw)[i] as int < 128
  {
    var v := ToSextets(raw);
    forall i | 0 <= i < |v|
      ensures SymbolValue(Encode(raw)[i]) == Some(v[i]) && Encode(raw)[i] != '.' && Encode(raw)[i] as int < 128
    {
      SymbolFacts(v[i]);
    }
  }

  /** Decoding undoes encoding for all byte strings. */
  lemma DecodeEncode(raw: Bytes, otherwise: string -> Option<Bytes>)
    ensures Decode(Encode(raw), otherwise) == Some(raw)
  {
    EncodeAlphabet(raw);
    SextetsRoundTrip(raw);
  }

  /** The bits of the last symbol that carry no data. */
  predicate UnusedBitsClear(v: seq<Sextet>) {
    (|v| % 4 == 2 ==> v[|v| - 1] % 16 == 0) && (|v| % 4 == 3 ==> v[|v| - 1] % 4 == 0)
  }

  lemma LongSextetsBack(v: seq<Sextet>)
    requires |v| >= 4 && |v| % 4 != 1
    ensures |v[4..]| % 4 != 1 && ToSextets(FromSextets(v)) == v[..4] + ToSextets(FromSextets(v[4..]))
  {
    FourOff(v);
    GroupBack(v, FromSextets(v[4..]), FromSextets(v));
  }

  lemma {:induction false} SextetsBack(v: seq<Sextet>)
    requires |v| % 4 != 1
    ensures ToSextets(FromSextets(v)) == v <==> UnusedBitsClear(v)
  {
    if |v| >= 4 {
      LongSextetsBack(v);
      SextetsBack(v[4..]);
      LongBack(v, ToSextets(FromSextets(v[4..])));
    } else if |v| == 3 {
      ThreeBack(v);
    } else if |v| == 2 {
      TwoBack(v);
    } else {
      assert v == [];
    }
  }

  lemma GroupArithmetic(a: Sextet, b: Sextet, c: Sextet, d: Sextet)
    ensures var x, y, z := FirstByte(a, b), SecondByte(b, c), ThirdByte(c, d);
            FirstSextet(x) == a && SecondSextet(x, y) == b && ThirdSextet(y, z) == c && FourthSextet(z) == d
    ensures SecondSextet(FirstByte(a, b), 0) == b <==> b % 16 == 0
    ensures ThirdSextet(SecondByte(b, c), 0) == c <==> c % 4 == 0
  {}

  lemma ThreeThen(x: Byte, y: Byte, z: Byte, rest: Bytes, b: Bytes)
    requires b == [x, y, z] + rest
    ensures ToSextets(b) == [FirstSextet(x), SecondSextet(x, y), ThirdSextet(y, z), FourthSextet(z)] + ToSextets(rest)
  {
    assert b[3..] == rest;
    ThreeOff(b);
  }

  lemma GroupBack(v: seq<Sextet>, rest: Bytes, b: Bytes)
    requires |v| >= 4 && b == [FirstByte(v[0], v[1]), SecondByte(v[1], v[2]), ThirdByte(v[2], v[3])] + rest
    ensures ToSextets(b) == v[..4] + ToSextets(rest)
  {
    GroupArithmetic(v[0], v[1], v[2], v[3]);
    ThreeThen(FirstByte(v[0], v[1]), SecondByte(v[1], v[2]), ThirdByte(v[2], v[3]), rest, b);
    assert v[..4] == [v[0], v[1], v[2], v[3]];
  }

  lemma SameTwo(a: Sextet, b: Sextet, v: seq<Sextet>)
    requires |v| == 2 && a == v[0]
    ensures [a, b] == v <==> b == v[1]
  {}

  lemma SameThree(a: Sextet, b: Sextet, c: Sextet, v: seq<Sextet>)
    requires |v| == 3 && a == v[0] && b == v[1]
    ensures [a, b, c] == v <==> c == v[2]
  {}

  lemma ShortGroups(x: Byte, y: Byte)
    ensures ToSextets([x]) == [FirstSextet(x), SecondSextet(x, 0)]
    ensures ToSextets([x, y]) == [FirstSextet(x), SecondSextet(x, y), ThirdSextet(y, 0)]
  {}

  lemma TwoBack(v: seq<Sextet>)
    requires |v| == 2
    ensures ToSextets(FromSextets(v)) == v <==> v[1] % 16 == 0
  {
    var x := FirstByte(v[0], v[1]);
    assert FromSextets(v) == [x];
    ShortGroups(x, 0);
    GroupArithmetic(v[0], v[1], 0, 0);
    SameTwo(FirstSextet(x), SecondSextet(x, 0), v);
  }

  lemma ThreeBack(v: seq<Sextet>)
    requires |v| == 3
    ensures ToSextets(FromSextets(v)) == v <==> v[2] % 4 == 0
  {
    var x, y := FirstByte(v[0], v[1]), SecondByte(v[1], v[2]);
    assert FromSextets(v) == [x, y];
    ShortGroups(x, y);
    GroupArithmetic(v[0], v[1], v[2], 0);
    SameThree(FirstSextet(x), SecondSextet(x, y), ThirdSextet(y, 0), v);
  }

  lemma LongBack(v: seq<Sextet>, back: seq<Sextet>)
    requires |v| >= 4
    ensures v[..4] + back == v <==> back == v[4..]
    ensures UnusedBitsClear(v) <==> UnusedBitsClear(v[4..])
  {
    assert v == v[..4] + v[4..];
    assert (v[..4] + back)[4..] == back;
    FourMore(|v[4..]|);
    assert |v[4..]| > 0 ==> v[4..][|v[4..]| - 1] == v[|v| - 1];
  }

  /** Which texts are somebody's encoding: of the texts the decoder reads, exactly those in the
      URL-safe spelling whose unused bits are clear. */
  lemma EncodeDecode(s: string, otherwise: string -> Option<Bytes>)
    requires InAlphabet(s) && |s| % 4 != 1
    ensures Encode(Decode(s, otherwise).value) == s <==> '+' !in s && '/' !in s && UnusedBitsClear(Values(s))
  {
    var v := Values(s);
    SextetsBack(v);
    var raw := FromSextets(v);
    EncodeAlphabet(raw);
    if Encode(raw) == s {
      forall i | 0 <= i < |s| ensures s[i] != '+' && s[i] != '/' {
        SymbolFacts(ToSextets(raw)[i]);
        UrlSafeSymbol(ToSextets(raw)[i]);
      }
    }
    if '+' !in s && '/' !in s && UnusedBitsClear(v) {
      forall i | 0 <= i < |s| ensures Encode(raw)[i] == s[i] {
        assert s[i] in s;
        SymbolOfValue(s[i]);
      }
    }
  }

  lemma UrlSafeSymbol(v: Sextet)
    ensures Symbol(v) != '+' && Symbol(v) != '/'
  {
    SymbolFacts(v);
    if v == 62 || v == 63 { assert Symbol(62) == '-' && Symbol(63) == '_'; }
  }

  lemma SymbolOfValue(c: char)
    requires SymbolValue(c).Some? && c != '+' && c != '/'
    ensures Symbol(SymbolValue(c).value) == c
  {
    SymbolFacts(SymbolValue(c).value);
  }
}
