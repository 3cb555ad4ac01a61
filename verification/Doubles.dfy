/** Integers as JavaScript numbers: rounding to the nearest double, and the decimal digits that
    Number.prototype.toString prints for an integral double below 1e21. */
module Doubles {

  const TWO53 := 0x20_0000_0000_0000
  const TWO54 := 0x40_0000_0000_0000
  const TWO55 := 0x80_0000_0000_0000

  /** Half of m, the lost bit kept as a sticky last bit. */
  function Jam(m: nat): nat {
    2 * (m / 4) + if m % 4 == 0 then 0 else 1
  }

  /** Below 2^53 every integer is a double, below 2^54 every second, below 2^55 every fourth. */
  function NearestBelowTwo55(m: nat): nat
    requires m < TWO55
  {
    if m < TWO53 then m
    else if m < TWO54 then (if m % 4 == 1 then m - 1 else if m % 4 == 3 then m + 1 else m)
    else if m % 4 == 1 then m - 1
    else if m % 4 == 3 then m + 1
    else if m % 8 == 2 then m - 2
    else if m % 8 == 6 then m + 2
    else m
  }

  /** The double nearest to m, of two equally near the one with an even significand: what
      JSON.parse makes of the digits of m. Each further binade is twice the one before. */
  function NearestNat(m: nat): nat {
    if m < TWO55 then NearestBelowTwo55(m) else 2 * NearestNat(Jam(m))
  }

  function Nearest(n: int): int {
    if n >= 0 then NearestNat(n) else 0 - (NearestNat(-n) as int)
  }

  predicate IsDouble(n: int) { Nearest(n) == n }

  function Pow10(j: nat): (p: nat)
    ensures p >= 1
  {
    if j == 0 then 1 else 10 * Pow10(j - 1)
  }

  /** The number without its last j digits, and with zeros in their place. */
  function Lead(n: nat, j: nat): nat { if j == 0 then n else Lead(n / 10, j - 1) }
  function Down(n: nat, j: nat): nat { if j == 0 then n else 10 * Down(n / 10, j - 1) }
  function Up(n: nat, j: nat): nat { Down(n, j) + Pow10(j) }

  /** Of the decimals with the most trailing zeros, from the j-th down, among those that read
      back as n, the one nearest to n. */
  function ShortestFrom(n: nat, j: nat): nat {
    var down, up := Down(n, j), Up(n, j);
    var takesDown, takesUp := NearestNat(down) == n, NearestNat(up) == n;
    if takesDown && (!takesUp || 2 * n < down + up || (2 * n == down + up && Lead(n, j) % 2 == 0)) then down
    else if takesUp then up
    else if j == 0 then n
    else ShortestFrom(n, j - 1)
  }

  /** The value of the printed digits: as few as identify the double, padded with zeros. */
  function Shortest(n: int): int {
    if n >= 0 then ShortestFrom(n, 21) else 0 - (ShortestFrom(-n, 21) as int)
  }

  // ---- Rounding -------------------------------------------------------------------------------

  lemma MonotoneBelowTwo55(a: nat, b: nat)
    requires a <= b < TWO55
    ensures NearestBelowTwo55(a) <= NearestBelowTwo55(b) <= TWO55
    ensures b >= TWO54 ==> NearestBelowTwo55(b) % 4 == 0 && NearestBelowTwo55(b) >= TWO54
  {}

  lemma JamMonotone(a: nat, b: nat)
    requires a <= b
    ensures Jam(a) <= Jam(b)
    ensures b >= TWO55 ==> TWO54 <= Jam(b) < b
  {
    assert a / 4 <= b / 4;
  }

  lemma Unfold(m: nat)
    ensures NearestNat(m) == if m < TWO55 then NearestBelowTwo55(m) else 2 * NearestNat(Jam(m))
    ensures NearestNat(TWO54) == TWO54
  {}

  lemma {:induction false} NearestMonotone(a: nat, b: nat)
    requires a <= b
    ensures NearestNat(a) <= NearestNat(b)
    decreases b
  {
    Unfold(a);
    Unfold(b);
    JamMonotone(a, b);
    if a >= TWO55 {
      NearestMonotone(Jam(a), Jam(b));
    } else if b >= TWO55 {
      MonotoneBelowTwo55(0, a);
      NearestMonotone(TWO54, Jam(b));
    } else {
      MonotoneBelowTwo55(a, b);
    }
  }

  lemma NearestKeepsPowers(m: nat)
    ensures m >= TWO53 ==> NearestNat(m) >= TWO53
    ensures m >= TWO54 ==> NearestNat(m) >= TWO54
    ensures m >= TWO55 ==> NearestNat(m) >= TWO55
    ensures NearestNat(TWO55) == TWO55
  {
    assert NearestNat(TWO53) == TWO53 && NearestNat(TWO54) == TWO54;
    assert NearestNat(TWO55) == 2 * NearestNat(TWO54) == TWO55;
    if m >= TWO53 { NearestMonotone(TWO53, m); }
    if m >= TWO54 { NearestMonotone(TWO54, m); }
    if m >= TWO55 { NearestMonotone(TWO55, m); }
  }

  lemma JamOfDouble(y: nat)
    requires y % 4 == 0
    ensures Jam(2 * y) == y
  {}

  lemma NearestOfDouble(y: nat)
    requires y % 4 == 0 && 2 * y >= TWO55
    ensures NearestNat(2 * y) == 2 * NearestNat(y)
  {
    JamOfDouble(y);
    Unfold(2 * y);
  }

  lemma AgainBelowTwo55(m: nat)
    requires m < TWO55
    ensures NearestNat(NearestBelowTwo55(m)) == NearestBelowTwo55(m)
  {
    Unfold(NearestBelowTwo55(m));
    if m >= TWO54 { MonotoneBelowTwo55(m, m); }
    if NearestBelowTwo55(m) >= TWO55 { NearestKeepsPowers(m); }
  }

  lemma {:induction false} NearestAgain(m: nat)
    ensures NearestNat(NearestNat(m)) == NearestNat(m)
  {
    Unfold(m);
    if m >= TWO55 {
      NearestAgain(Jam(m));
      NearestKeepsPowers(Jam(m));
      MultipleOfFour(Jam(m));
      NearestOfDouble(NearestNat(Jam(m)));
    } else {
      AgainBelowTwo55(m);
    }
  }

  lemma TwiceByFour(y: nat)
    requires y % 4 == 0
    ensures 2 * y % 4 == 0
  {}

  lemma {:induction false} MultipleOfFour(m: nat)
    requires m >= TWO54
    ensures NearestNat(m) % 4 == 0
  {
    Unfold(m);
    if m >= TWO55 {
      JamMonotone(m, m);
      MultipleOfFour(Jam(m));
      TwiceByFour(NearestNat(Jam(m)));
    } else {
      MonotoneBelowTwo55(m, m);
    }
  }

  /** Rounding gives a double. */
  lemma NearestIsDouble(n: int)
    ensures IsDouble(Nearest(n))
  {
    NearestAgain(if n >= 0 then n else -n);
  }

  function Distance(a: int, b: int): nat { if a <= b then b - a else a - b }

  lemma NearerBelowTwo55(m: nat, d: nat)
    requires m < TWO55 && d <= TWO55 && (d < TWO55 ==> NearestBelowTwo55(d) == d)
    ensures Distance(NearestBelowTwo55(m), m) <= Distance(d, m)
  {}

  lemma HalvesAreNearer(m: nat, near: nat, other: nat)
    requires near % 4 == 0 && other % 4 == 0 && Distance(near, Jam(m)) <= Distance(other, Jam(m))
    ensures Distance(2 * near, m) <= Distance(2 * other, m)
  {
    var k, l, q, r := near / 4, other / 4, m / 4, m % 4;
    HalvesAreNearerBy(k, l, q, r);
  }

  lemma HalvesAreNearerBy(k: nat, l: nat, q: nat, r: nat)
    requires r < 4
    requires var h := 2 * q + if r == 0 then 0 else 1; Distance(4 * k, h) <= Distance(4 * l, h)
    ensures Distance(8 * k, 4 * q + r) <= Distance(8 * l, 4 * q + r)
  {
    if r != 0 && k != l { assert Distance(4 * k, 2 * q + 1) != Distance(4 * l, 2 * q + 1); }
  }

  /** Rounding is to the nearest: no double is nearer. */
  lemma {:induction false} NoDoubleIsNearer(m: nat, d: nat)
    requires NearestNat(d) == d
    ensures Distance(NearestNat(m), m) <= Distance(d, m)
    decreases m, if d < TWO55 then 1 else 0
  {
    if m >= TWO55 && d < TWO55 {
      NearestKeepsPowers(m);
      NearestKeepsPowers(TWO55);
      NoDoubleIsNearer(m, TWO55);
    } else if m >= TWO55 {
      var y := NearestNat(Jam(d));
      MultipleOfFour(Jam(d));
      MultipleOfFour(Jam(m));
      NearestAgain(Jam(d));
      NoDoubleIsNearer(Jam(m), y);
      HalvesAreNearer(m, NearestNat(Jam(m)), y);
    } else {
      NearerBelowTwo55(m, if d < TWO55 then d else TWO55);
    }
  }

  // ---- Reading the digits back -------------------------------------------------------------------

  lemma {:induction false} ShortestFromBack(n: nat, j: nat)
    requires NearestNat(n) == n
    ensures NearestNat(ShortestFrom(n, j)) == n
  {
    if j > 0 { ShortestFromBack(n, j - 1); }
  }

  /** The printed digits read back as the number. */
  lemma ShortestReadsBack(n: int)
    requires IsDouble(n)
    ensures Nearest(Shortest(n)) == n
  {
    ShortestFromBack(if n >= 0 then n else -n, 21);
  }

  /** Different numbers print different digits. */
  lemma ShortestInjective(a: int, b: int)
    requires IsDouble(a) && IsDouble(b) && Shortest(a) == Shortest(b)
    ensures a == b
  {
    ShortestReadsBack(a);
    ShortestReadsBack(b);
  }

  lemma NearestOfSmall(m: nat)
    ensures m < TWO53 ==> NearestNat(m) == m
    ensures m >= TWO53 ==> NearestNat(m) >= TWO53
  {
    NearestKeepsPowers(m);
  }

  lemma {:induction false} ShortestFromSmall(n: nat, j: nat)
    requires n < TWO53
    ensures ShortestFrom(n, j) == n
  {
    NearestOfSmall(Down(n, j));
    NearestOfSmall(Up(n, j));
    if j > 0 { ShortestFromSmall(n, j - 1); }
  }

  /** Every safe integer is a double and prints as itself. */
  lemma SafeIntegers(n: int)
    requires -TWO53 < n < TWO53
    ensures IsDouble(n) && Shortest(n) == n
  {
    ShortestFromSmall(if n >= 0 then n else -n, 21);
  }

  // ---- As few digits as possible ---------------------------------------------------------------------

  predicate EndsInZeros(m: nat, j: nat) {
    j == 0 || (m % 10 == 0 && EndsInZeros(m / 10, j - 1))
  }

  lemma {:induction false} Neighbours(n: nat, m: nat, j: nat)
    requires EndsInZeros(m, j)
    ensures m <= n ==> m <= Down(n, j)
    ensures m > n ==> m >= Up(n, j)
    ensures Down(n, j) <= n < Up(n, j)
  {
    if j > 0 { Neighbours(n / 10, m / 10, j - 1); }
  }

  lemma UpTenfold(n: nat, j: nat)
    requires j > 0
    ensures Up(n, j) == 10 * Up(n / 10, j - 1)
  {}

  lemma TenfoldEndsInZeros(x: nat, j: nat)
    requires j > 0 && EndsInZeros(x, j - 1)
    ensures EndsInZeros(10 * x, j)
  {
    assert 10 * x / 10 == x;
  }

  lemma {:induction false} NeighboursEndInZeros(n: nat, j: nat)
    ensures EndsInZeros(Down(n, j), j) && EndsInZeros(Up(n, j), j)
  {
    if j > 0 {
      NeighboursEndInZeros(n / 10, j - 1);
      UpTenfold(n, j);
      TenfoldEndsInZeros(Down(n / 10, j - 1), j);
      TenfoldEndsInZeros(Up(n / 10, j - 1), j);
    }
  }

  lemma {:induction false} FewerZeros(m: nat, i: nat, j: nat)
    requires i <= j && EndsInZeros(m, j)
    ensures EndsInZeros(m, i)
  {
    if i > 0 { FewerZeros(m / 10, i - 1, j - 1); }
  }

  /** Of the decimals ending in j zeros, one that reads back lies beyond a neighbour that does. */
  lemma NeighbourTaken(n: nat, m: nat, j: nat)
    requires NearestNat(n) == n && NearestNat(m) == n && EndsInZeros(m, j)
    ensures m <= n ==> m <= Down(n, j) && NearestNat(Down(n, j)) == n
    ensures m > n ==> m >= Up(n, j) && NearestNat(Up(n, j)) == n
  {
    Neighbours(n, m, j);
    if m <= n {
      NearestMonotone(m, Down(n, j));
      NearestMonotone(Down(n, j), n);
    } else {
      NearestMonotone(Up(n, j), m);
      NearestMonotone(n, Up(n, j));
    }
  }

  /** No decimal that reads back as the number ends in more zeros, up to `top`, and so has fewer
      digits, than the printed one. */
  lemma {:induction false} ShortestFromIsShortest(n: nat, top: nat, m: nat, j: nat)
    requires NearestNat(n) == n && NearestNat(m) == n && j <= top && EndsInZeros(m, j)
    ensures EndsInZeros(ShortestFrom(n, top), j)
  {
    var down, up := Down(n, top), Up(n, top);
    if NearestNat(down) == n || NearestNat(up) == n {
      NeighboursEndInZeros(n, top);
      FewerZeros(ShortestFrom(n, top), j, top);
    } else if j == top {
      NeighbourTaken(n, m, top);
      assert false;
    } else {
      ShortestFromIsShortest(n, top - 1, m, j);
    }
  }

  lemma {:induction false} LeadOfNeighbours(n: nat, j: nat)
    ensures Lead(Down(n, j), j) == Lead(n, j) && Lead(Up(n, j), j) == Lead(n, j) + 1
  {
    if j > 0 {
      LeadOfNeighbours(n / 10, j - 1);
      UpTenfold(n, j);
    }
  }

  /** Which of the two neighbours is taken. */
  predicate Taken(n: nat, down: nat, up: nat, lead: nat, r: nat) {
    var takesDown, takesUp := NearestNat(down) == n, NearestNat(up) == n;
    && (takesDown || takesUp)
    && (if takesDown && (!takesUp || 2 * n < down + up || (2 * n == down + up && lead % 2 == 0)) then r == down else r == up)
  }

  lemma TakenIsNearest(n: nat, down: nat, up: nat, lead: nat, r: nat, m: nat)
    requires down <= n < up && Taken(n, down, up, lead, r)
    requires (m <= down && NearestNat(down) == n) || (m >= up && NearestNat(up) == n)
    ensures Distance(r, n) <= Distance(m, n)
    ensures m != r && Distance(r, n) == Distance(m, n) ==> if lead % 2 == 0 then r == down else r == up
  {}

  lemma ShortestTakes(n: nat, j: nat)
    requires NearestNat(Down(n, j)) == n || NearestNat(Up(n, j)) == n
    ensures Taken(n, Down(n, j), Up(n, j), Lead(n, j), ShortestFrom(n, j))
  {}

  lemma NextIsEven(x: nat)
    ensures x % 2 == 0 || (x + 1) % 2 == 0
  {}

  lemma EvenLead(n: nat, r: nat, j: nat)
    requires if Lead(n, j) % 2 == 0 then r == Down(n, j) else r == Up(n, j)
    ensures Lead(r, j) % 2 == 0
  {
    LeadOfNeighbours(n, j);
    NextIsEven(Lead(n, j));
  }

  lemma NearestOfTwo(n: nat, m: nat, top: nat)
    requires NearestNat(n) == n && NearestNat(m) == n && EndsInZeros(m, top)
    ensures var r := ShortestFrom(n, top);
            && Distance(r, n) <= Distance(m, n)
            && (m != r && Distance(r, n) == Distance(m, n) ==> Lead(r, top) % 2 == 0)
  {
    var r := ShortestFrom(n, top);
    NeighbourTaken(n, m, top);
    Neighbours(n, m, top);
    ShortestTakes(n, top);
    TakenIsNearest(n, Down(n, top), Up(n, top), Lead(n, top), r, m);
    if m != r && Distance(r, n) == Distance(m, n) { EvenLead(n, r, top); }
  }

  lemma NeitherTaken(n: nat, j: nat)
    requires NearestNat(n) == n && NearestNat(Down(n, j)) != n && NearestNat(Up(n, j)) != n
    ensures j > 0 && ShortestFrom(n, j) == ShortestFrom(n, j - 1) && !EndsInZeros(ShortestFrom(n, j), j)
  {
    ShortestFromBack(n, j);
    if EndsInZeros(ShortestFrom(n, j), j) { NeighbourTaken(n, ShortestFrom(n, j), j); }
  }

  /** r ends in j zeros and is no farther from n than m; if as far, its last digit before the
      zeros is even. */
  predicate NoFarther(n: nat, r: nat, m: nat, j: nat) {
    && EndsInZeros(r, j) && Distance(r, n) <= Distance(m, n)
    && (m != r && Distance(r, n) == Distance(m, n) ==> Lead(r, j) % 2 == 0)
  }

  lemma NoFartherHere(n: nat, top: nat, m: nat)
    requires NearestNat(n) == n && NearestNat(m) == n && EndsInZeros(m, top)
    requires NearestNat(Down(n, top)) == n || NearestNat(Up(n, top)) == n
    ensures NoFarther(n, ShortestFrom(n, top), m, top)
  {
    ShortestTakes(n, top);
    NeighboursEndInZeros(n, top);
    NearestOfTwo(n, m, top);
  }

  predicate ReadsBack(n: nat, j: nat) {
    NearestNat(Down(n, j)) == n || NearestNat(Up(n, j)) == n
  }

  /** The trailing zeros of the printed digits: the most, up to `top`, with which a neighbour
      reads back. */
  function Zeros(n: nat, top: nat): (j: nat)
    ensures j <= top
  {
    if top == 0 || ReadsBack(n, top) then top else Zeros(n, top - 1)
  }

  lemma {:induction false} ZerosAreExact(n: nat, top: nat)
    requires NearestNat(n) == n && Zeros(n, top) < top
    ensures !EndsInZeros(ShortestFrom(n, top), Zeros(n, top) + 1)
  {
    NeitherTaken(n, top);
    if Zeros(n, top - 1) < top - 1 { ZerosAreExact(n, top - 1); }
  }

  lemma {:induction false} NoFartherFrom(n: nat, top: nat, m: nat)
    requires NearestNat(n) == n && NearestNat(m) == n && EndsInZeros(m, Zeros(n, top))
    ensures NoFarther(n, ShortestFrom(n, top), m, Zeros(n, top))
  {
    if ReadsBack(n, top) {
      NoFartherHere(n, top, m);
    } else {
      NeitherTaken(n, top);
      NoFartherFrom(n, top - 1, m);
    }
  }

  /** The printed digits end in exactly that many zeros; and of the decimals ending in as many
      that read back as the number none is nearer to it, and if another one is as near, the last
      digit before the zeros is even. */
  lemma ShortestFromIsNearest(n: nat, top: nat, m: nat)
    requires NearestNat(n) == n && NearestNat(m) == n && EndsInZeros(m, Zeros(n, top))
    ensures NoFarther(n, ShortestFrom(n, top), m, Zeros(n, top))
    ensures Zeros(n, top) < top ==> !EndsInZeros(ShortestFrom(n, top), Zeros(n, top) + 1)
  {
    NoFartherFrom(n, top, m);
    if Zeros(n, top) < top { ZerosAreExact(n, top); }
  }

  // ---- A witness -----------------------------------------------------------------------------------

  const TWO60 := 0x1000_0000_0000_0000

  const BELOW := 1_152_921_504_606_840_000
  const ABOVE := 1_152_921_504_606_850_000

  /** The decimals around 2^60 that end in four zeros. */
  lemma AroundTwo60()
    ensures Down(TWO60, 4) == BELOW && Up(TWO60, 4) == ABOVE
  {
    DownStep(TWO60, 4, 115_292_150_460_684_697);
    DownStep(115_292_150_460_684_697, 3, 11_529_215_046_068_469);
    DownStep(11_529_215_046_068_469, 2, 1_152_921_504_606_846);
    DownStep(1_152_921_504_606_846, 1, 115_292_150_460_684);
    assert Pow10(4) == 10_000;
  }

  lemma DownStep(n: nat, j: nat, tenth: nat)
    requires j > 0 && n / 10 == tenth
    ensures Down(n, j) == 10 * Down(tenth, j - 1) && Down(n, 0) == n && Down(tenth, 0) == tenth
  {}

  lemma HalfStep(m: nat, half: nat)
    requires m >= TWO55 && Jam(m) == half
    ensures NearestNat(m) == 2 * NearestNat(half)
  {}

  lemma NearestBelow()
    ensures NearestNat(BELOW) == 1_152_921_504_606_840_064
  {
    HalfStep(1_152_921_504_606_840_000, 576_460_752_303_420_000);
    HalfStep(576_460_752_303_420_000, 288_230_376_151_710_000);
    HalfStep(288_230_376_151_710_000, 144_115_188_075_855_000);
    HalfStep(144_115_188_075_855_000, 72_057_594_037_927_500);
    HalfStep(72_057_594_037_927_500, 36_028_797_018_963_750);
  }

  lemma NearestAbove()
    ensures NearestNat(ABOVE) == 1_152_921_504_606_850_048
  {
    HalfStep(1_152_921_504_606_850_000, 576_460_752_303_425_000);
    HalfStep(576_460_752_303_425_000, 288_230_376_151_712_500);
    HalfStep(288_230_376_151_712_500, 144_115_188_075_856_250);
    HalfStep(144_115_188_075_856_250, 72_057_594_037_928_125);
    HalfStep(72_057_594_037_928_125, 36_028_797_018_964_063);
    HalfStep(36_028_797_018_964_063, 18_014_398_509_482_031);
  }

  /** No decimal ending in four zeros reads back as 2^60. */
  lemma NoFourZeros(m: nat)
    requires EndsInZeros(m, 4)
    ensures NearestNat(m) != TWO60
  {
    Neighbours(TWO60, m, 4);
    AroundTwo60();
    NearestBelow();
    NearestAbove();
    if m <= TWO60 { NearestMonotone(m, BELOW); } else { NearestMonotone(ABOVE, m); }
  }

  lemma NotTaken(n: nat, j: nat)
    requires j > 0 && NearestNat(Down(n, j)) != n && NearestNat(Up(n, j)) != n
    ensures ShortestFrom(n, j) == ShortestFrom(n, j - 1)
  {}

  lemma {:induction false} SkipTo3(n: nat, j: nat)
    requires j >= 3 && forall m: nat :: EndsInZeros(m, 4) ==> NearestNat(m) != n
    ensures ShortestFrom(n, j) == ShortestFrom(n, 3)
  {
    if j > 3 {
      NeighboursEndInZeros(n, j);
      FewerZeros(Down(n, j), 4, j);
      FewerZeros(Up(n, j), 4, j);
      NotTaken(n, j);
      SkipTo3(n, j - 1);
    }
  }

  lemma NearestSeven()
    ensures NearestNat(1_152_921_504_606_847_000) == TWO60
  {
    HalfStep(1_152_921_504_606_847_000, 576_460_752_303_423_500);
    HalfStep(576_460_752_303_423_500, 288_230_376_151_711_750);
    HalfStep(288_230_376_151_711_750, 144_115_188_075_855_875);
    HalfStep(144_115_188_075_855_875, 72_057_594_037_927_937);
    HalfStep(72_057_594_037_927_937, 36_028_797_018_963_969);
    HalfStep(36_028_797_018_963_969, 18_014_398_509_481_985);
  }

  lemma NearestSix()
    ensures NearestNat(1_152_921_504_606_846_000) == 1_152_921_504_606_845_952
  {
    HalfStep(1_152_921_504_606_846_000, 576_460_752_303_423_000);
    HalfStep(576_460_752_303_423_000, 288_230_376_151_711_500);
    HalfStep(288_230_376_151_711_500, 144_115_188_075_855_750);
    HalfStep(144_115_188_075_855_750, 72_057_594_037_927_875);
    HalfStep(72_057_594_037_927_875, 36_028_797_018_963_937);
  }

  lemma NearestTwo60()
    ensures NearestNat(TWO60) == TWO60
  {
    HalfStep(1_152_921_504_606_846_976, 576_460_752_303_423_488);
    HalfStep(576_460_752_303_423_488, 288_230_376_151_711_744);
    HalfStep(288_230_376_151_711_744, 144_115_188_075_855_872);
    HalfStep(144_115_188_075_855_872, 72_057_594_037_927_936);
    HalfStep(72_057_594_037_927_936, 36_028_797_018_963_968);
    HalfStep(36_028_797_018_963_968, 18_014_398_509_481_984);
  }

  lemma ThreeZerosTaken()
    ensures ShortestFrom(TWO60, 3) == 1_152_921_504_606_847_000
  {
    NearestSeven();
    NearestSix();
    DownStep(TWO60, 3, 115_292_150_460_684_697);
    DownStep(115_292_150_460_684_697, 2, 11_529_215_046_068_469);
    DownStep(11_529_215_046_068_469, 1, 1_152_921_504_606_846);
    assert Pow10(3) == 1000;
  }

  /** 2^60 is a double that prints as 1152921504606847000: other digits than its own. */
  lemma TwoToThe60()
    ensures IsDouble(TWO60) && Shortest(TWO60) == 1_152_921_504_606_847_000
  {
    NearestTwo60();
    ThreeZerosTaken();
    forall m: nat | EndsInZeros(m, 4) ensures NearestNat(m) != TWO60 { NoFourZeros(m); }
    SkipTo3(TWO60, 21);
  }
}
