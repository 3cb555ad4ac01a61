/** The database's uuid type: many spellings of one value. The reader takes hexadecimal digits
    of either case, an optional hyphen after every fourth digit and an optional pair of braces
    around the whole; the printed form is lower case with four hyphens. */
module Uuids {
  import opened Sorting
  import opened Wrappers

  datatype Uuid = Uuid(digits: seq<int>)

  ghost predicate IsUuid(u: Uuid) {
    |u.digits| == 32 && forall i :: 0 <= i < 32 ==> 0 <= u.digits[i] < 16
  }

  predicate IsUpperHex(c: int) { 0x41 <= c <= 0x46 }
  predicate IsLowerHex(c: int) { 0x61 <= c <= 0x66 }
  predicate IsDecimal(c: int) { 0x30 <= c <= 0x39 }
  predicate IsHex(c: int) { IsDecimal(c) || IsUpperHex(c) || IsLowerHex(c) }

  const HYPHEN := 0x2d
  const OPEN := 0x7b
  const CLOSE := 0x7d

  function HexOf(c: int): int
    requires IsHex(c)
  {
    if IsDecimal(c) then c - 0x30 else if IsUpperHex(c) then c - 0x41 + 10 else c - 0x61 + 10
  }

  /** Read the byte pairs from the i-th on; the rest of the text is returned. */
  function ReadPairs(t: Text, i: nat): Option<(seq<int>, Text)>
    requires i <= 16
    decreases |t|
  {
    if i == 16 then Some(([], t))
    else if |t| < 2 || !IsHex(t[0]) || !IsHex(t[1]) then None
    else
      match ReadPairs(AfterHyphen(t[2..], i), i + 1)
      case None => None
      case Some((digits, rest)) => Some(([HexOf(t[0]), HexOf(t[1])] + digits, rest))
  }

  function AfterHyphen(t: Text, i: nat): Text {
    if |t| > 0 && t[0] == HYPHEN && i % 2 == 1 && i < 15 then t[1..] else t
  }

  /** The input function of the uuid type; None is the error it raises. */
  function ReadUuid(t: Text): Option<Uuid> {
    var braced := |t| > 0 && t[0] == OPEN;
    match ReadPairs(if braced then t[1..] else t, 0)
    case None => None
    case Some((digits, rest)) => if rest == (if braced then [CLOSE] else []) then Some(Uuid(digits)) else None
  }

  function Digit(d: int): int {
    if d < 10 then 0x30 + d else 0x61 + d - 10
  }

  function PairsText(digits: seq<int>, i: nat): Text {
    if |digits| < 2 then []
    else
      [Digit(digits[0]), Digit(digits[1])]
      + (Hyphen(i) + PairsText(digits[2..], i + 1))
  }

  /** The output function: 8-4-4-4-12 lower-case digits. */
  function UuidText(u: Uuid): Text {
    PairsText(u.digits, 0)
  }

  lemma DigitBack(d: int)
    requires 0 <= d < 16
    ensures IsHex(Digit(d)) && HexOf(Digit(d)) == d && Digit(d) != HYPHEN && Digit(d) != OPEN && !IsUpperHex(Digit(d))
  {}

  lemma ReadStep(x: int, y: int, after: Text, i: nat, digits: seq<int>, rest: Text)
    requires i < 16 && 0 <= x < 16 && 0 <= y < 16
    requires ReadPairs(AfterHyphen(after, i), i + 1) == Some((digits, rest))
    ensures ReadPairs([Digit(x), Digit(y)] + after, i) == Some(([x, y] + digits, rest))
  {
    DigitBack(x);
    DigitBack(y);
    assert ([Digit(x), Digit(y)] + after)[2..] == after;
  }

  function Hyphen(i: nat): Text { if i == 3 || i == 5 || i == 7 || i == 9 then [HYPHEN] else [] }

  lemma HyphenSkipped(i: nat, tail: Text)
    requires |tail| > 0 ==> tail[0] != HYPHEN
    ensures AfterHyphen(Hyphen(i) + tail, i) == tail
  {
    if Hyphen(i) == [] { assert Hyphen(i) + tail == tail; } else { assert ([HYPHEN] + tail)[1..] == tail; }
  }

  lemma PairsTextStarts(digits: seq<int>, i: nat)
    requires forall k :: 0 <= k < |digits| ==> 0 <= digits[k] < 16
    ensures |PairsText(digits, i)| > 0 ==> PairsText(digits, i)[0] == Digit(digits[0]) && |digits| > 0 && PairsText(digits, i)[0] != HYPHEN
    ensures |digits| >= 2 ==> |PairsText(digits, i)| > 0
  {
    if |digits| >= 2 { DigitBack(digits[0]); }
  }

  lemma {:induction false} ReadPairsBack(digits: seq<int>, i: nat)
    requires i <= 16 && |digits| == 2 * (16 - i)
    requires forall k :: 0 <= k < |digits| ==> 0 <= digits[k] < 16
    ensures ReadPairs(PairsText(digits, i), i) == Some((digits, []))
    decreases 16 - i
  {
    if i < 16 {
      var more := digits[2..];
      ReadPairsBack(more, i + 1);
      PairsTextStarts(more, i + 1);
      HyphenSkipped(i, PairsText(more, i + 1));
      ReadStep(digits[0], digits[1], Hyphen(i) + PairsText(more, i + 1), i, more, []);
      assert digits == [digits[0], digits[1]] + more;
    }
  }

  /** Reading undoes printing. */
  lemma ReadUuidText(u: Uuid)
    requires IsUuid(u)
    ensures ReadUuid(UuidText(u)) == Some(u)
  {
    ReadPairsBack(u.digits, 0);
    PairsTextStarts(u.digits, 0);
    DigitBack(u.digits[0]);
  }

  lemma {:induction false} PairsAreDigits(t: Text, i: nat)
    requires i <= 16 && ReadPairs(t, i).Some?
    ensures var digits := ReadPairs(t, i).value.0;
            |digits| == 2 * (16 - i) && forall k :: 0 <= k < |digits| ==> 0 <= digits[k] < 16
    decreases 16 - i
  {
    if i < 16 { PairsAreDigits(AfterHyphen(t[2..], i), i + 1); }
  }

  /** What is read is a uuid. */
  lemma ReadIsUuid(t: Text)
    requires ReadUuid(t).Some?
    ensures IsUuid(ReadUuid(t).value)
  {
    PairsAreDigits(if |t| > 0 && t[0] == OPEN then t[1..] else t, 0);
  }

  // ---- Spellings ------------------------------------------------------------------------------

  predicate IsUuidChar(c: int) { IsHex(c) || c == HYPHEN || c == OPEN || c == CLOSE }

  lemma {:induction false} PairsChars(t: Text, i: nat)
    requires i <= 16 && ReadPairs(t, i).Some?
    ensures var rest := ReadPairs(t, i).value.1;
            |rest| <= |t| <= |rest| + 3 * (16 - i)
            && t[|t| - |rest|..] == rest
            && forall k :: 0 <= k < |t| - |rest| ==> IsUuidChar(t[k])
    decreases 16 - i
  {
    if i < 16 {
      var next := AfterHyphen(t[2..], i);
      PairsChars(next, i + 1);
      var rest := ReadPairs(t, i).value.1;
      var skipped := |t| - |next|;
      assert next == t[skipped..];
      forall k | 0 <= k < |t| - |rest| ensures IsUuidChar(t[k]) {
        if k >= skipped { assert t[k] == next[k - skipped]; }
      }
    }
  }

  lemma UnbracedChars(t: Text)
    requires ReadPairs(t, 0).Some? && |ReadPairs(t, 0).value.1| <= 1
    requires forall k :: 0 <= k < |ReadPairs(t, 0).value.1| ==> IsUuidChar(ReadPairs(t, 0).value.1[k])
    ensures 0 < |t| <= 49 && forall k :: 0 <= k < |t| ==> IsUuidChar(t[k])
  {
    var rest := ReadPairs(t, 0).value.1;
    PairsChars(t, 0);
    assert forall k :: |t| - |rest| <= k < |t| ==> t[k] == rest[k - (|t| - |rest|)];
  }

  /** A readable text is short and made of hexadecimal digits, hyphens and braces. */
  lemma ReadableChars(t: Text)
    requires ReadUuid(t).Some?
    ensures 0 < |t| <= 50 && forall k :: 0 <= k < |t| ==> IsUuidChar(t[k])
  {
    if t[0] == OPEN {
      UnbracedChars(t[1..]);
      assert forall k :: 0 < k < |t| ==> t[k] == t[1..][k - 1];
    } else {
      UnbracedChars(t);
    }
  }

  function UpperChar(c: int): int { if IsLowerHex(c) then c - 0x20 else c }

  function Upper(t: Text): (r: Text)
    ensures |r| == |t|
  {
    seq(|t|, i requires 0 <= i < |t| => UpperChar(t[i]))
  }

  lemma UpperTail(t: Text, k: nat)
    requires k <= |t|
    ensures Upper(t)[k..] == Upper(t[k..])
  {}

  lemma UpperHyphen(t: Text, i: nat)
    ensures AfterHyphen(Upper(t), i) == Upper(AfterHyphen(t, i))
  {
    if |t| > 0 { UpperTail(t, 1); }
  }

  function UpperRest(r: Option<(seq<int>, Text)>): Option<(seq<int>, Text)> {
    match r case None => None case Some((digits, rest)) => Some((digits, Upper(rest)))
  }

  lemma UpperStep(t: Text, i: nat, next: Text)
    requires i < 16 && |t| >= 2 && next == AfterHyphen(t[2..], i) && AfterHyphen(Upper(t)[2..], i) == Upper(next)
    requires ReadPairs(Upper(next), i + 1) == UpperRest(ReadPairs(next, i + 1))
    ensures ReadPairs(Upper(t), i) == UpperRest(ReadPairs(t, i))
  {}

  lemma {:induction false} UpperPairs(t: Text, i: nat)
    requires i <= 16
    ensures ReadPairs(Upper(t), i) == UpperRest(ReadPairs(t, i))
    decreases 16 - i
  {
    if i < 16 && |t| >= 2 {
      var next := AfterHyphen(t[2..], i);
      UpperTail(t, 2);
      UpperHyphen(t[2..], i);
      UpperPairs(next, i + 1);
      UpperStep(t, i, next);
    }
  }

  /** The upper-case spelling is the same uuid. */
  lemma UpperReadsTheSame(t: Text)
    ensures ReadUuid(Upper(t)) == ReadUuid(t)
  {
    var braced := |t| > 0 && t[0] == OPEN;
    var inner := if braced then t[1..] else t;
    if braced { UpperTail(t, 1); }
    assert (if braced then Upper(t)[1..] else Upper(t)) == Upper(inner);
    UpperPairs(inner, 0);
    if ReadPairs(inner, 0).Some? { UpperEnd(ReadPairs(inner, 0).value.1); }
  }

  lemma UpperEnd(rest: Text)
    ensures Upper(rest) == [] <==> rest == []
    ensures Upper(rest) == [CLOSE] <==> rest == [CLOSE]
  {
    if |rest| == 1 { assert Upper(rest) == [UpperChar(rest[0])] && rest == [rest[0]]; }
  }

  /** The text that the database prints for the uuid, and str(uuid.uuid4()) for a new one. */
  predicate OwnText(t: Text) {
    ReadUuid(t).Some? && UuidText(ReadUuid(t).value) == t
  }

  lemma UuidTextIsOwn(u: Uuid)
    requires IsUuid(u)
    ensures OwnText(UuidText(u))
  {
    ReadUuidText(u);
  }

  /** Two own texts of one uuid are the same text. */
  lemma OwnTextsAgree(a: Text, b: Text)
    requires OwnText(a) && OwnText(b)
    ensures ReadUuid(a) == ReadUuid(b) <==> a == b
  {}

  /** There is a uuid with two spellings: its own text, and that text in upper case. */
  lemma TwoSpellings() returns (own: Text, other: Text)
    ensures OwnText(own) && own != other && ReadUuid(other) == ReadUuid(own)
    ensures |other| > 0 && IsUpperHex(other[0]) && (forall k :: 0 <= k < |own| ==> !IsUpperHex(own[k]))
  {
    var u := Uuid(seq(32, _ => 10));
    own := UuidText(u);
    other := Upper(own);
    UuidTextIsOwn(u);
    UpperReadsTheSame(own);
    assert own[0] == Digit(10);
    assert own[0] != other[0];
    PairsLower(u.digits, 0);
  }

  lemma {:induction false} PairsLower(digits: seq<int>, i: nat)
    requires forall k :: 0 <= k < |digits| ==> 0 <= digits[k] < 16
    ensures forall k :: 0 <= k < |PairsText(digits, i)| ==> !IsUpperHex(PairsText(digits, i)[k])
    decreases |digits|
  {
    if |digits| >= 2 {
      PairsLower(digits[2..], i + 1);
      DigitBack(digits[0]);
      DigitBack(digits[1]);
    }
  }

  /** The digits alone, without hyphens. */
  function PlainText(digits: seq<int>): Text {
    seq(|digits|, i requires 0 <= i < |digits| => Digit(digits[i]))
  }

  lemma {:induction false} ReadPlainBack(digits: seq<int>, i: nat)
    requires i <= 16 && |digits| == 2 * (16 - i)
    requires forall k :: 0 <= k < |digits| ==> 0 <= digits[k] < 16
    ensures ReadPairs(PlainText(digits), i) == Some((digits, []))
    decreases 16 - i
  {
    if i < 16 {
      var more := digits[2..];
      ReadPlainBack(more, i + 1);
      if |more| > 0 { DigitBack(more[0]); }
      assert AfterHyphen(PlainText(more), i) == PlainText(more);
      ReadStep(digits[0], digits[1], PlainText(more), i, more, []);
      assert PlainText(digits) == [Digit(digits[0]), Digit(digits[1])] + PlainText(more);
      assert digits == [digits[0], digits[1]] + more;
    } else {
      assert PlainText(digits) == [];
    }
  }

  /** Every uuid has a second lower-case spelling, without hyphens. */
  lemma PlainSpelling(u: Uuid)
    requires IsUuid(u)
    ensures ReadUuid(PlainText(u.digits)) == Some(u) && PlainText(u.digits) != UuidText(u)
    ensures forall k :: 0 <= k < 32 ==> !IsUpperHex(PlainText(u.digits)[k])
  {
    ReadPlainBack(u.digits, 0);
    DigitBack(u.digits[0]);
    forall k | 0 <= k < 32 ensures !IsUpperHex(PlainText(u.digits)[k]) { DigitBack(u.digits[k]); }
    PairsTextIsLonger(u.digits, 0);
  }

  lemma {:induction false} PairsTextIsLonger(digits: seq<int>, i: nat)
    requires |digits| % 2 == 0
    ensures |PairsText(digits, i)| >= |digits| + (if i <= 3 && i + |digits| / 2 > 3 then 1 else 0)
    decreases |digits|
  {
    if |digits| >= 2 { PairsTextIsLonger(digits[2..], i + 1); }
  }
}
