/**
 * The tag as the TypeScript SDK writes it: the id is a JavaScript number, interpolated into a string. Numbers
 * here are the non-negative integers among the doubles of IEEE 754, and printing follows Number::toString of
 * ECMA-262, section 6.1.6.1.20.
 */
module SdkTag {
  import opened Types
  import opened PaymentTag

  const TWO_TO_52: nat := 0x10_0000_0000_0000
  const TWO_TO_53: nat := 0x20_0000_0000_0000
  const TWO_TO_55: nat := 0x80_0000_0000_0000

  /** The distance between neighbouring numbers from v upwards: a double has 53 significant bits. */
  function Gap(v: nat): (g: nat)
    ensures g > 0
  {
    if v < TWO_TO_53 then 1 else 2 * Gap(v / 2)
  }

  predicate IsNumber(x: nat) {
    x % Gap(x) == 0
  }

  /** The number nearest to an integer; ties go to the even significand. */
  function Nearest(v: nat): nat {
    var g := Gap(v);
    var m, r := v / g, v % g;
    if 2 * r < g || (2 * r == g && m % 2 == 0) then m * g else (m + 1) * g
  }

  /** The least power of ten that does not divide a positive integer: rounding to it drops one more digit. */
  function RoundingUnit(x: nat): (p: nat)
    ensures p >= 10
  {
    if x > 0 && x % 10 == 0 then 10 * RoundingUnit(x / 10) else 10
  }

  /** Rounding the id to one digit less, down or up, gives another number: a check any caller can make. */
  predicate KeepsItsDigits(x: nat) {
    var p := RoundingUnit(x);
    x <= TWO_TO_53 || (Nearest(x / p * p) != x && Nearest((x / p + 1) * p) != x)
  }

  /** How many digits are left without the trailing zeros. */
  function Significant(v: nat): nat {
    if v > 0 && v % 10 == 0 then Significant(v / 10) else |Print(v)|
  }

  function Distance(v: nat, x: nat): nat {
    if v < x then x - v else v - x
  }

  /**
   * The number x prints as the decimal digits of v: of the integers that denote x, those with fewest significant
   * digits, and of these one closest to x. Fractions never have fewer digits than x itself.
   */
  ghost predicate Prints(x: nat, v: nat) {
    && Nearest(v) == x
    && forall w: nat :: Nearest(w) == x ==>
         || Significant(v) < Significant(w)
         || (Significant(v) == Significant(w) && Distance(v, x) <= Distance(w, x))
  }

  /** The tag for an id that prints as v. */
  function Tag(v: nat): seq<byte> {
    PREFIX + Print(v)
  }

  lemma TagDenotes(v: nat, id: uint64)
    ensures ParseTag(Tag(v)) == Some(id) <==> v == id
  {
    PrintDenotes(v);
    ParseDigitsExact(Print(v));
    assert Tag(v)[|PREFIX|..] == Print(v);
  }

  // ---------------------------------------------------------------------------------------------
  // Up to 2^53
  // ---------------------------------------------------------------------------------------------

  /** A significand has at least 53 bits. */
  lemma {:induction false} GapBounds(v: nat)
    requires v >= TWO_TO_53
    ensures Gap(v) >= 2 && Gap(v) * TWO_TO_52 <= v
  {
    if v / 2 >= TWO_TO_53 {
      GapBounds(v / 2);
    }
  }

  lemma DivMod(v: nat, g: nat)
    requires g > 0
    ensures v == v / g * g + v % g && (v / g + 1) * g == v / g * g + g
  {
  }

  lemma MulMonotone(a: nat, b: nat, g: nat)
    requires a <= b
    ensures a * g <= b * g
  {
  }

  lemma QuotientAtLeast(v: nat, g: nat, m: nat)
    requires g > 0 && g * m <= v
    ensures v / g >= m
  {
    DivMod(v, g);
    if v / g < m {
      MulMonotone(v / g + 1, m, g);
    }
  }

  /** A multiple of a gap g >= 2 with at least 53 bits of significand, not at the least of them. */
  lemma MultipleAbove(m: nat, g: nat)
    requires m >= TWO_TO_52 && g >= 2
    ensures m * g >= TWO_TO_53
    ensures m * g == TWO_TO_53 ==> m == TWO_TO_52 && g == 2
  {
    assert m * g == TWO_TO_52 * g + (m - TWO_TO_52) * g;
    if m > TWO_TO_52 {
      assert (m - TWO_TO_52) * g >= g;
    }
  }

  /** From 2^53 on, rounding stays there, and only the tie after 2^53 falls back to it. */
  lemma NearestFromTwoTo53(w: nat)
    requires w >= TWO_TO_53
    ensures Nearest(w) >= TWO_TO_53
    ensures Nearest(w) == TWO_TO_53 ==> w <= TWO_TO_53 + 1
  {
    var g := Gap(w);
    GapBounds(w);
    QuotientAtLeast(w, g, TWO_TO_52);
    MultipleAbove(w / g, g);
    MultipleAbove(w / g + 1, g);
    DivMod(w, g);
  }

  function Power10(k: nat): nat {
    if k == 0 then 1 else 10 * Power10(k - 1)
  }

  lemma {:induction false} Power10Sum(j: nat, k: nat)
    ensures Power10(j + k) == Power10(j) * Power10(k)
  {
    if j > 0 {
      Power10Sum(j - 1, k);
    }
  }

  lemma PowersOfTen()
    ensures Power10(15) == 1_000_000_000_000_000
    ensures Power10(16) == 10_000_000_000_000_000
    ensures Power10(17) == 100_000_000_000_000_000
  {
    assert Power10(5) == 100_000;
    Power10Sum(5, 5);
    Power10Sum(10, 5);
    Power10Sum(1, 15);
    Power10Sum(1, 16);
  }

  lemma {:induction false} PrintLength(n: nat, k: nat)
    requires k >= 1 && n < Power10(k) && (k > 1 ==> n >= Power10(k - 1))
    ensures |Print(n)| == k
  {
    if k > 1 {
      PrintLength(n / 10, k - 1);
    }
  }

  lemma SixteenDigits(n: nat)
    requires 1_000_000_000_000_000 <= n < 10_000_000_000_000_000
    ensures |Print(n)| == 16
  {
    PowersOfTen();
    PrintLength(n, 16);
  }

  lemma NearestToSafe(w: nat, x: nat)
    requires x <= TWO_TO_53 && Nearest(w) == x
    ensures w == x || (x == TWO_TO_53 && w == x + 1)
  {
    if w >= TWO_TO_53 {
      NearestFromTwoTo53(w);
    }
  }

  /** 2^53 and the tie after it have the same number of digits, none of them a trailing zero. */
  lemma SignificantAtTwoTo53(w: nat)
    requires TWO_TO_53 <= w <= TWO_TO_53 + 1
    ensures Significant(w) == 16
  {
    SixteenDigits(w);
  }

  lemma SafePrintsItself(x: nat, v: nat)
    requires x <= TWO_TO_53
    ensures Prints(x, v) <==> v == x
  {
    SmallIsNumber(x);
    forall w: nat | Nearest(w) == x ensures w == x || (Significant(w) == Significant(x) && Distance(w, x) > 0) {
      NearestToSafe(w, x);
      if w != x {
        SignificantAtTwoTo53(w);
        SignificantAtTwoTo53(x);
      }
    }
  }

  /** An id of at most 2^53 prints as itself, so its tag parses back. */
  lemma SafeIdsRoundTrip(id: uint64, v: nat)
    requires id <= TWO_TO_53
    ensures IsNumber(id) && (Prints(id, v) <==> v == id)
    ensures Prints(id, v) ==> ParseTag(Tag(v)) == Some(id)
  {
    TagDenotes(v, id);
    SmallIsNumber(id);
    SafePrintsItself(id, v);
  }

  lemma SmallIsNumber(x: nat)
    requires x <= TWO_TO_53
    ensures IsNumber(x) && Nearest(x) == x
  {
    if x == TWO_TO_53 {
      assert Gap(x) == 2 * Gap(x / 2) == 2;
    }
  }

  // ---------------------------------------------------------------------------------------------
  // Above
  // ---------------------------------------------------------------------------------------------

  /** There are ids the SDK cannot even be given. */
  lemma NotEveryIdIsANumber(x: nat)
    requires x == TWO_TO_53 + 1
    ensures !IsNumber(x)
  {
    assert Gap(x) == 2 * Gap(x / 2) == 2;
  }

  lemma GapAtTwoTo55(x: nat)
    ensures TWO_TO_55 <= x < 2 * TWO_TO_55 ==> Gap(x) == 8
    ensures TWO_TO_55 <= 2 * x < 2 * TWO_TO_55 ==> Gap(x) == 4
  {
    if TWO_TO_55 <= x < 2 * TWO_TO_55 {
      assert Gap(x) == 2 * Gap(x / 2) == 4 * Gap(x / 4) == 8 * Gap(x / 8);
    }
    if TWO_TO_55 <= 2 * x < 2 * TWO_TO_55 {
      assert Gap(x) == 2 * Gap(x / 2) == 4 * Gap(x / 4);
    }
  }

  /** Rounding moves by less than a gap. */
  lemma NearestIsNear(w: nat)
    ensures w < Nearest(w) + Gap(w) && Nearest(w) <= w + Gap(w)
  {
    DivMod(w, Gap(w));
  }

  /** Only seven integers denote the number 2^55. */
  lemma DenotesTwoTo55(w: nat, x: nat)
    requires x == TWO_TO_55 && Nearest(w) == x
    ensures x - 2 <= w <= x + 4
  {
    NearestIsNear(w);
    GapAtTwoTo55(w);
    if w >= TWO_TO_53 {
      GapBounds(w);
    }
  }

  lemma NumberAtTwoTo55(x: nat)
    requires x == TWO_TO_55
    ensures IsNumber(x) && Nearest(x + 2) == x
  {
    GapAtTwoTo55(x);
    GapAtTwoTo55(x + 2);
  }

  lemma SeventeenDigits(n: nat)
    requires 10_000_000_000_000_000 <= n < 100_000_000_000_000_000
    ensures |Print(n)| == 17
  {
    PowersOfTen();
    PrintLength(n, 17);
  }

  lemma SignificantNearTwoTo55(w: nat, x: nat)
    requires x == TWO_TO_55 && x - 2 <= w <= x + 4
    ensures Significant(w) == if w == x + 2 then 16 else 17
  {
    if w == x + 2 {
      SixteenDigits(w / 10);
    } else {
      SeventeenDigits(w);
    }
  }

  lemma PrintsAtTwoTo55(x: nat, v: nat)
    requires x == TWO_TO_55
    ensures Prints(x, v) <==> v == x + 2
  {
    NumberAtTwoTo55(x);
    SignificantNearTwoTo55(x + 2, x);
    forall w: nat | Nearest(w) == x ensures w == x + 2 || Significant(w) == 17 {
      DenotesTwoTo55(w, x);
      SignificantNearTwoTo55(w, x);
    }
  }

  /** The id 2^55 is a number, but prints as 2^55 + 2, which denotes it in fewer digits: the tag names another id. */
  lemma SdkTagFails(id: uint64, v: nat)
    requires id == TWO_TO_55
    ensures IsNumber(id) && (Prints(id, v) <==> v == id + 2)
    ensures Prints(id, v) ==> ParseTag(Tag(v)) == Some(id + 2)
  {
    NumberAtTwoTo55(id);
    PrintsAtTwoTo55(id, v);
    TagDenotes(v, id + 2);
  }

  // ---------------------------------------------------------------------------------------------
  // The exact condition
  // ---------------------------------------------------------------------------------------------

  /** No integer that denotes the number x has fewer significant digits than x itself. */
  ghost predicate IsShortest(x: nat) {
    forall w: nat :: Nearest(w) == x ==> Significant(x) <= Significant(w)
  }

  /** The gap is the same from one number to the next. */
  lemma {:induction false} SameCell(v: nat, w: nat)
    requires v / Gap(w) == w / Gap(w)
    ensures Gap(v) == Gap(w)
  {
    var g := Gap(w);
    DivMod(v, g);
    DivMod(w, g);
    if w >= TWO_TO_53 {
      GapBounds(w);
      QuotientAtLeast(w, g, TWO_TO_52);
      MultipleAbove(w / g, g);
      HalfCell(v, Gap(w / 2));
      HalfCell(w, Gap(w / 2));
      SameCell(v / 2, w / 2);
    }
  }

  lemma HalfCell(v: nat, h: nat)
    requires h > 0
    ensures v / 2 / h == v / (2 * h)
  {
    var q := v / 2 / h;
    DivMod(v / 2, h);
    assert q * (2 * h) == 2 * (q * h);
    QuotientIs(v, 2 * h, q);
  }

  lemma QuotientIs(v: nat, h: nat, q: nat)
    requires h > 0 && q * h <= v < q * h + h
    ensures v / h == q
  {
    DivMod(v, h);
    if v / h < q {
      MulMonotone(v / h + 1, q, h);
    } else if v / h > q {
      MulMonotone(q + 1, v / h, h);
    }
  }

  lemma NearestInCell(u: nat, g: nat, m: nat)
    requires Gap(u) == g && m * g <= u < m * g + g
    ensures var r := u - m * g;
            Nearest(u) == if 2 * r < g || (2 * r == g && m % 2 == 0) then m * g else m * g + g
  {
    DivMod(u, g);
    QuotientIs(u, g, m);
  }

  /** What lies between an integer and the number it denotes denotes that number too. */
  lemma Between(w: nat, u: nat)
    requires w <= u < Nearest(w) || Nearest(w) <= u <= w
    ensures Nearest(u) == Nearest(w)
  {
    var g := Gap(w);
    var m := w / g;
    DivMod(w, g);
    NearestInCell(w, g, m);
    QuotientIs(u, g, m);
    SameCell(u, w);
    NearestInCell(u, g, m);
  }

  function Zeros(v: nat): nat
    requires v > 0
  {
    if v % 10 == 0 then 1 + Zeros(v / 10) else 0
  }

  lemma {:induction false} DigitsAndZeros(v: nat)
    requires v > 0
    ensures |Print(v)| == Significant(v) + Zeros(v) && Significant(v) >= 1
    ensures RoundingUnit(v) == Power10(Zeros(v) + 1)
  {
    if v % 10 == 0 {
      DigitsAndZeros(v / 10);
    }
  }

  lemma TimesPower(c: nat, k: nat)
    requires k > 0
    ensures c * Power10(k) == 10 * (c * Power10(k - 1))
  {
    TimesTen(c, Power10(k - 1));
  }

  lemma TimesTen(c: nat, q: nat)
    ensures c * (10 * q) == 10 * (c * q)
  {
  }

  lemma ZerosOfTenfold(u: nat)
    requires u > 0
    ensures Zeros(10 * u) == 1 + Zeros(u)
  {
    assert 10 * u / 10 == u;
  }

  lemma {:induction false} MultipleHasZeros(c: nat, k: nat)
    requires c > 0
    ensures c * Power10(k) > 0 && Zeros(c * Power10(k)) >= k
  {
    if k > 0 {
      MultipleHasZeros(c, k - 1);
      TimesPower(c, k);
      ZerosOfTenfold(c * Power10(k - 1));
    }
  }

  lemma {:induction false} ZerosDivide(v: nat, k: nat) returns (c: nat)
    requires v > 0 && k <= Zeros(v)
    ensures v == c * Power10(k)
  {
    if k == 0 {
      c := v;
    } else {
      c := ZerosDivide(v / 10, k - 1);
      TimesPower(c, k);
    }
  }

  lemma {:induction false} LengthBounds(v: nat)
    requires v > 0
    ensures |Print(v)| >= 1 && Power10(|Print(v)| - 1) <= v < Power10(|Print(v)|)
  {
    if v >= 10 {
      LengthBounds(v / 10);
    } else {
      assert Power10(0) == 1;
    }
  }

  lemma {:induction false} LengthIsMonotone(v: nat, u: nat)
    requires v <= u
    ensures |Print(v)| <= |Print(u)|
  {
    if v >= 10 {
      LengthIsMonotone(v / 10, u / 10);
    }
  }

  lemma {:induction false} Power10IsMonotone(j: nat, k: nat)
    requires j <= k
    ensures 0 < Power10(j) <= Power10(k)
  {
    if k > j {
      Power10IsMonotone(j, k - 1);
    } else if j > 0 {
      Power10IsMonotone(j - 1, j - 1);
    }
  }

  /** A power of ten that p divides and that x does not exceed, or does, bounds x's neighbouring multiples of p. */
  lemma MultiplesAround(x: nat, p: nat, d: nat)
    requires p > 0
    ensures d * p <= x ==> d * p <= x / p * p
    ensures d * p > x ==> d * p >= (x / p + 1) * p
    ensures x / p * p <= x < (x / p + 1) * p
  {
    DivMod(x, p);
    if d <= x / p {
      MulMonotone(d, x / p, p);
    } else {
      MulMonotone(x / p + 1, d, p);
    }
  }

  /** An integer below a power of ten has no more digits than its zeros. */
  lemma ShorterThanPower(w: nat, n: nat)
    requires 0 < w < Power10(n)
    ensures |Print(w)| <= n
  {
    LengthBounds(w);
    if |Print(w)| > n {
      Power10IsMonotone(n, |Print(w)| - 1);
    }
  }

  lemma PowerHasOneDigit(n: nat)
    ensures Power10(n) > 0 && Significant(Power10(n)) == 1
  {
    Power10IsMonotone(n, n + 1);
    PrintLength(Power10(n), n + 1);
    MultipleHasZeros(1, n);
    DigitsAndZeros(Power10(n));
  }

  /** The next multiple of the unit is at most the next power of ten. */
  lemma RoundedUpIsAtMostPower(x: nat)
    requires x > 0
    ensures (x / RoundingUnit(x) + 1) * RoundingUnit(x) <= Power10(|Print(x)|)
  {
    var z, n := Zeros(x), |Print(x)|;
    DigitsAndZeros(x);
    LengthBounds(x);
    Power10Sum(n - z - 1, z + 1);
    MultiplesAround(x, RoundingUnit(x), Power10(n - z - 1));
  }

  /** A multiple of x's unit that is no longer than x has fewer significant digits. */
  lemma MultipleIsShorter(x: nat, c: nat)
    requires x > 0 && c > 0 && |Print(c * RoundingUnit(x))| <= |Print(x)|
    ensures Significant(c * RoundingUnit(x)) < Significant(x)
  {
    DigitsAndZeros(x);
    MultipleHasZeros(c, Zeros(x) + 1);
    DigitsAndZeros(c * RoundingUnit(x));
  }

  /** Rounding up to the unit drops a digit, or gives a power of ten. */
  lemma RoundedUpIsShorter(x: nat)
    requires x > 0
    ensures var w := (x / RoundingUnit(x) + 1) * RoundingUnit(x);
            Significant(w) < Significant(x) || (Significant(x) == 1 && w == Power10(|Print(x)|))
  {
    var c, n := x / RoundingUnit(x) + 1, |Print(x)|;
    var w := c * RoundingUnit(x);
    RoundedUpIsAtMostPower(x);
    if w < Power10(n) {
      MulMonotone(1, c, RoundingUnit(x));
      ShorterThanPower(w, n);
      MultipleIsShorter(x, c);
    } else {
      PowerHasOneDigit(n);
      DigitsAndZeros(x);
    }
  }

  /** An integer of one significant digit is at most nine tenths of the next power of ten. */
  lemma NineTenths(x: nat)
    requires x > 0 && Significant(x) == 1
    ensures 10 * x <= 9 * Power10(|Print(x)|)
  {
    var n := |Print(x)|;
    DigitsAndZeros(x);
    LengthBounds(x);
    var c := ZerosDivide(x, n - 1);
    if c >= 10 {
      MulMonotone(10, c, Power10(n - 1));
    } else {
      MulMonotone(c, 9, Power10(n - 1));
    }
  }

  /** So the next power of ten denotes another number. */
  lemma FarFromPower(x: nat)
    requires x > TWO_TO_53 && Significant(x) == 1
    ensures Nearest(Power10(|Print(x)|)) != x
  {
    var w := Power10(|Print(x)|);
    NineTenths(x);
    GapBounds(w);
    NearestIsNear(w);
  }

  lemma NotItsOwnMultiple(x: nat)
    requires x > 0
    ensures x / RoundingUnit(x) * RoundingUnit(x) != x
  {
    DigitsAndZeros(x);
    if x / RoundingUnit(x) > 0 {
      MultipleHasZeros(x / RoundingUnit(x), Zeros(x) + 1);
    }
  }

  /** A multiple of the unit from w on towards x: w itself, or the least integer as long as x. */
  lemma UnitBetween(x: nat, w: nat) returns (d: nat)
    requires x > 0 && w > 0 && Significant(w) < Significant(x)
    ensures var p := RoundingUnit(x); w <= d * p <= x || x < d * p <= w
  {
    var z, n := Zeros(x), |Print(x)|;
    DigitsAndZeros(x);
    DigitsAndZeros(w);
    if Zeros(w) > z {
      d := ZerosDivide(w, z + 1);
    } else {
      LengthBounds(x);
      LengthBounds(w);
      Power10IsMonotone(|Print(w)|, n - 1);
      Power10Sum(n - z - 2, z + 1);
      d := Power10(n - z - 2);
    }
  }

  /** An integer with fewer digits than x lies beyond a neighbouring multiple of x's unit. */
  lemma BeyondNeighbour(x: nat, w: nat)
    requires x > 0 && w > 0 && Significant(w) < Significant(x)
    ensures var p := RoundingUnit(x); w <= x / p * p < x || x < (x / p + 1) * p <= w
  {
    var d := UnitBetween(x, w);
    MultiplesAround(x, RoundingUnit(x), d);
    NotItsOwnMultiple(x);
  }

  /** If such an integer denotes x, so does that multiple. */
  lemma ShorterMeansRounded(x: nat, w: nat)
    requires x > TWO_TO_53 && Nearest(w) == x && Significant(w) < Significant(x)
    ensures !KeepsItsDigits(x)
  {
    var p := RoundingUnit(x);
    assert Nearest(0) == 0;
    BeyondNeighbour(x, w);
    Between(w, if w < x then x / p * p else (x / p + 1) * p);
  }

  /** Rounding down to the unit drops a digit. */
  lemma RoundedDownIsShorter(x: nat)
    requires x > 0 && x / RoundingUnit(x) > 0
    ensures Significant(x / RoundingUnit(x) * RoundingUnit(x)) < Significant(x)
  {
    MultiplesAround(x, RoundingUnit(x), 0);
    LengthIsMonotone(x / RoundingUnit(x) * RoundingUnit(x), x);
    MultipleIsShorter(x, x / RoundingUnit(x));
  }

  lemma RoundsDownToItself(x: nat)
    requires x > 0 && Nearest(x / RoundingUnit(x) * RoundingUnit(x)) == x
    ensures !IsShortest(x)
  {
    assert Nearest(0) == 0;
    RoundedDownIsShorter(x);
  }

  lemma RoundsUpToItself(x: nat)
    requires x > TWO_TO_53 && Nearest((x / RoundingUnit(x) + 1) * RoundingUnit(x)) == x
    ensures !IsShortest(x)
  {
    RoundedUpIsShorter(x);
    if Significant(x) == 1 {
      FarFromPower(x);
    }
  }

  lemma IsShortestIff(x: nat)
    requires x > TWO_TO_53
    ensures IsShortest(x) <==> KeepsItsDigits(x)
  {
    if KeepsItsDigits(x) {
      forall w: nat | Nearest(w) == x ensures Significant(x) <= Significant(w) {
        if Significant(w) < Significant(x) {
          ShorterMeansRounded(x, w);
        }
      }
    } else if Nearest(x / RoundingUnit(x) * RoundingUnit(x)) == x {
      RoundsDownToItself(x);
    } else {
      RoundsUpToItself(x);
    }
  }

  /**
   * The SDK's tag parses to the id it was given exactly when the id is at most 2^53 or rounding it to one digit
   * less, down or up, gives another number.
   */
  lemma SdkRoundTripIff(id: uint64, v: nat)
    requires IsNumber(id) && Prints(id, v)
    ensures ParseTag(Tag(v)) == Some(id) <==> KeepsItsDigits(id)
  {
    TagDenotes(v, id);
    if id <= TWO_TO_53 {
      SafePrintsItself(id, v);
    } else {
      assert Nearest(id) == id;
      IsShortestIff(id);
    }
  }

  /** Every number prints: some integer that denotes it is shortest, and of these closest. */
  lemma EveryNumberPrints(x: nat, w: nat) returns (v: nat)
    requires Nearest(w) == x
    ensures Prints(x, v)
    decreases Significant(w), Distance(w, x)
  {
    if Prints(x, w) {
      v := w;
    } else {
      var better: nat :| && Nearest(better) == x && Significant(better) <= Significant(w)
                         && (Significant(better) == Significant(w) ==> Distance(better, x) < Distance(w, x));
      v := EveryNumberPrints(x, better);
    }
  }
}
