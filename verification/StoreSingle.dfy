/** stfs and psq_st: a register's double becomes the bits of a single, as the store
    conversion of section 4.6.3 of the Power ISA (Book I) prescribes. Bit fields are
    cut out of the words by division; or-ing disjoint fields is adding them. */
module StoreSingle {
  const BIT23 := 0x80_0000
  const BIT29 := 0x2000_0000
  const BIT31 := 0x8000_0000
  const BIT52 := 0x10_0000_0000_0000
  const BIT63 := 0x8000_0000_0000_0000

  type Double = d: int | 0 <= d < 0x1_0000_0000_0000_0000
  type Single = w: int | 0 <= w < 0x1_0000_0000

  function Pow2(n: nat): (p: nat)
    ensures p > 0
  {
    if n == 0 then 1 else 2 * Pow2(n - 1)
  }

  function Sign(d: Double): (s: int)
    ensures 0 <= s <= 1
  {
    d / BIT63
  }

  function Exponent(d: Double): (e: int)
    ensures 0 <= e <= 0x7FF
  {
    d / BIT52 % 0x800
  }

  function Mantissa(d: Double): (m: int)
    ensures 0 <= m < BIT52
  {
    d % BIT52
  }

  function SingleSign(w: Single): (s: int)
    ensures 0 <= s <= 1
  {
    w / BIT31
  }

  function SingleExponent(w: Single): (x: int)
    ensures 0 <= x <= 0xFF
  {
    w / BIT23 % 0x100
  }

  function Fraction(w: Single): (f: int)
    ensures 0 <= f < BIT23
  {
    w % BIT23
  }

  /** The 32 significant bits of a denormal result, shifted into place. */
  function Narrowed(e: int, m: int): (f: int)
    requires 874 <= e <= 896 && 0 <= m < BIT52
    ensures 0 <= f < BIT31
  {
    Quotient(BIT31 + m / 0x20_0000, Pow2(905 - e));
    (BIT31 + m / 0x20_0000) / Pow2(905 - e)
  }

  /** ConvertPpcDoubleToSingleBits. The code tests the range with one unsigned
      comparison, `exponent - 874 <= 22`. */
  function Store(d: Double): Single {
    if 874 <= Exponent(d) <= 896 then Narrowed(Exponent(d), Mantissa(d)) + Sign(d) * BIT31
    else d / 0x4000_0000_0000_0000 * 0x4000_0000 + d / BIT29 % 0x4000_0000
  }

  lemma Multiply(q: nat, a: nat, b: nat)
    requires a <= b
    ensures q * a <= q * b && a * q <= b * q
  {
  }

  lemma Quotient(a: nat, p: nat)
    requires p > 0
    ensures 0 <= a / p && a / p * p <= a < (a / p + 1) * p
    ensures p >= 2 ==> 2 * (a / p) <= a
  {
    var q, r := a / p, a % p;
    assert a == q * p + r && 0 <= r < p;
    assert (q + 1) * p == q * p + p;
    if p >= 2 { Multiply(q, 2, p); }
  }

  lemma QuotientAtLeast(a: nat, p: nat, n: nat)
    requires p > 0
    ensures n * p <= a <==> n <= a / p
  {
    Quotient(a, p);
    if n <= a / p { Multiply(p, n, a / p); } else { Multiply(p, a / p + 1, n); }
  }

  /** The quotient is the one number with these bounds. */
  lemma QuotientIs(a: nat, p: nat, q: nat)
    requires p > 0 && q * p <= a < (q + 1) * p
    ensures a / p == q
  {
    QuotientAtLeast(a, p, q);
    QuotientAtLeast(a, p, q + 1);
  }

  lemma {:induction false} Pow2Add(a: nat, b: nat)
    ensures Pow2(a + b) == Pow2(a) * Pow2(b)
  {
    if a > 0 {
      Pow2Add(a - 1, b);
      assert Pow2(a) == 2 * Pow2(a - 1) && Pow2(a + b) == 2 * Pow2(a - 1 + b);
      hide Pow2;
      DoubleProduct(Pow2(a - 1), Pow2(b));
    }
  }

  lemma DoubleProduct(x: int, y: int)
    ensures 2 * (x * y) == 2 * x * y
  {
  }

  lemma {:induction false} Pow2Grows(a: nat, b: nat)
    requires a <= b
    ensures Pow2(a) <= Pow2(b)
    decreases b - a
  {
    if a < b { Pow2Grows(a, b - 1); }
  }

  lemma Pow2Values()
    ensures Pow2(21) == 0x20_0000 && Pow2(23) == BIT23 && Pow2(29) == BIT29 && Pow2(30) == 0x4000_0000
    ensures Pow2(52) == BIT52
  {
    assert Pow2(10) == 1024;
    Pow2Add(10, 10);
    assert Pow2(21) == 2 * Pow2(20) && Pow2(22) == 2 * Pow2(21) && Pow2(23) == 2 * Pow2(22);
    Pow2Add(20, 9);
    assert Pow2(9) == 512;
    assert Pow2(30) == 2 * Pow2(29);
    Pow2Add(29, 23);
  }

  // ---------------------------------------------------------------- exact widening

  /** d has exactly the value of the single w, or its infinity or NaN payload. A
      denormal f * 2^-149 equals (2^52 + m) * 2^(e - 1075). */
  predicate Widens(w: Single, d: Double) {
    var x, f, e, m := SingleExponent(w), Fraction(w), Exponent(d), Mantissa(d);
    && Sign(d) == SingleSign(w)
    && if x == 0 && f == 0 then e == 0 && m == 0
       else if x == 0 then 874 <= e <= 896 && f * Pow2(926 - e) == BIT52 + m
       else e == (if x == 0xFF then 0x7FF else x + 896) && m == f * BIT29
  }

  /** A word is made of its three fields. */
  lemma SingleFields(w: Single)
    ensures w == SingleSign(w) * BIT31 + SingleExponent(w) * BIT23 + Fraction(w)
  {
  }

  lemma DoubleFields(d: Double)
    ensures d == Sign(d) * BIT63 + Exponent(d) * BIT52 + Mantissa(d)
  {
  }

  lemma OtherFields(d: Double)
    ensures var s, e, m := Sign(d), Exponent(d), Mantissa(d);
            d / 0x4000_0000_0000_0000 * 0x4000_0000 + d / BIT29 % 0x4000_0000
            == s * BIT31 + e / 0x400 * 0x4000_0000 + e % 0x80 * BIT23 + m / BIT29
  {
    var s, e, m := Sign(d), Exponent(d), Mantissa(d);
    DoubleFields(d);
    hide Sign, Exponent, Mantissa;
    var h, l := e / 0x400, e % 0x400;
    assert d / 0x4000_0000_0000_0000 == 2 * s + h;
    var k := m / BIT29;
    assert d / BIT29 == s * 0x4_0000_0000 + e * BIT23 + k;
    assert 0 <= e % 0x80 * BIT23 + k < 0x4000_0000;
    assert e == e / 0x80 * 0x80 + e % 0x80;
    assert d / BIT29 == (s * 0x10 + e / 0x80) * 0x4000_0000 + (e % 0x80 * BIT23 + k);
  }

  // ---------------------------------------------------------------- storing undoes widening

  /** The denormal's fraction is the whole significand shifted right. */
  lemma NarrowedIs(e: int, m: int)
    requires 874 <= e <= 896 && 0 <= m < BIT52
    ensures Narrowed(e, m) == (BIT52 + m) / Pow2(926 - e)
    ensures 0 < Narrowed(e, m) < BIT23
  {
    var j := 905 - e;
    var a, p, q := BIT31 + m / 0x20_0000, Pow2(905 - e), Narrowed(e, m);
    Pow2Add(21, j);
    Pow2Values();
    Quotient(a, p);
    var s := BIT52 + m;
    assert a * 0x20_0000 <= s < (a + 1) * 0x20_0000;
    Multiply(0x20_0000, q * p, a);
    Multiply(0x20_0000, a + 1, (q + 1) * p);
    Regroup(q, p);
    Regroup(q + 1, p);
    QuotientIs(s, Pow2(926 - e), q);
    DenormalSize(e, s, q);
  }

  lemma Regroup(q: nat, p: nat)
    ensures 0x20_0000 * (q * p) == q * (0x20_0000 * p)
  {
  }

  lemma DenormalSize(e: int, s: int, q: int)
    requires 874 <= e <= 896 && BIT52 <= s < 2 * BIT52 && q == s / Pow2(926 - e)
    ensures 0 < q < BIT23
  {
    var p := Pow2(926 - e);
    Pow2Values();
    Pow2Grows(30, 926 - e);
    Pow2Grows(926 - e, 52);
    hide Pow2;
    QuotientAtLeast(s, p, 1);
    QuotientAtLeast(s, p, BIT23);
    Multiply(BIT23, 0x4000_0000, p);
  }

  lemma StoreOther(d: Double)
    requires !(874 <= Exponent(d) <= 896)
    ensures Store(d)
            == Sign(d) * BIT31 + (Exponent(d) / 0x400 * 0x80 + Exponent(d) % 0x80) * BIT23 + Mantissa(d) / BIT29
  {
    OtherFields(d);
  }

  /** Storing undoes exact widening: zeros, denormals, infinities and NaN payloads too. */
  lemma StoreUndoesWidening(w: Single, d: Double)
    requires Widens(w, d)
    ensures Store(d) == w
  {
    SingleFields(w);
    var x, f, e, m := SingleExponent(w), Fraction(w), Exponent(d), Mantissa(d);
    hide Sign, SingleSign, Exponent, Mantissa, Narrowed, SingleExponent, Fraction;
    if x == 0 && f != 0 {
      NarrowedIs(e, m);
      assert (f + 1) * Pow2(926 - e) == f * Pow2(926 - e) + Pow2(926 - e);
      QuotientIs(BIT52 + m, Pow2(926 - e), f);
    } else {
      StoreOther(d);
    }
  }

  /** Every single has a widening, so no two singles share a double. */
  lemma EveryWidens(w: Single) returns (d: Double)
    ensures Widens(w, d)
  {
    var s, x, f := SingleSign(w), SingleExponent(w), Fraction(w);
    var e, m;
    hide Pow2, SingleSign, SingleExponent, Fraction, Sign, Exponent, Mantissa;
    if x == 0 && f == 0 {
      e, m := 0, 0;
    } else if x == 0 {
      FractionFits(f);
      var k := Normalized(f, 29);
      e, m := 926 - k, f * Pow2(k) - BIT52;
    } else {
      e, m := if x == 0xFF then 0x7FF else x + 896, f * BIT29;
    }
    FieldsOf(s, e, m);
    d := s * BIT63 + e * BIT52 + m;
  }

  lemma FieldsOf(s: int, e: int, m: int)
    requires 0 <= s <= 1 && 0 <= e <= 0x7FF && 0 <= m < BIT52
    ensures var d := s * BIT63 + e * BIT52 + m;
            0 <= d < 0x1_0000_0000_0000_0000 && Sign(d) == s && Exponent(d) == e && Mantissa(d) == m
  {
  }

  lemma FractionFits(f: int)
    requires 0 <= f < BIT23
    ensures f * Pow2(29) < BIT52
  {
    Pow2Values();
  }

  lemma DoublePow2(f: int, n: nat)
    ensures f * Pow2(n + 1) == 2 * (f * Pow2(n))
  {
  }

  /** The shift that brings a denormal's leading bit to the hidden place. */
  lemma {:induction false} Normalized(f: int, from: nat) returns (k: nat)
    requires 0 < f < BIT23 && 29 <= from <= 52 && f * Pow2(from) < if from == 29 then BIT52 else 2 * BIT52
    ensures 30 <= k <= 52 && BIT52 <= f * Pow2(k) < 2 * BIT52
    decreases 52 - from
  {
    if f * Pow2(from) >= BIT52 {
      k := from;
    } else {
      Pow2Values();
      Multiply(BIT52, 1, f);
      DoublePow2(f, from);
      hide Pow2;
      k := Normalized(f, from + 1);
    }
  }

  // ---------------------------------------------------------------- truncation

  /** The magnitude of a finite double, in units of 2^-1075. */
  function Magnitude(d: Double): int {
    if Exponent(d) == 0 then Mantissa(d) * Pow2(1) else (BIT52 + Mantissa(d)) * Pow2(Exponent(d))
  }

  /** The weight of a finite single's last place, in the same units. */
  function LastPlace(w: Single): (p: int)
    ensures p > 0
  {
    if SingleExponent(w) == 0 then Pow2(926) else Pow2(SingleExponent(w) + 925)
  }

  function SingleMagnitude(w: Single): int {
    (if SingleExponent(w) == 0 then Fraction(w) else BIT23 + Fraction(w)) * LastPlace(w)
  }

  /** The stored single is finite, has d's sign, and is d truncated toward zero: not
      larger, and less than one unit in its last place off. */
  predicate Truncates(d: Double) {
    var w := Store(d);
    && SingleExponent(w) < 0xFF && SingleSign(w) == Sign(d)
    && SingleMagnitude(w) <= Magnitude(d) < SingleMagnitude(w) + LastPlace(w)
  }

  lemma SingleFieldsOf(s: int, x: int, f: int)
    requires 0 <= s <= 1 && 0 <= x <= 0xFF && 0 <= f < BIT23
    ensures var w := s * BIT31 + x * BIT23 + f;
            0 <= w < 0x1_0000_0000 && SingleSign(w) == s && SingleExponent(w) == x && Fraction(w) == f
  {
  }

  lemma StoredFields(d: Double)
    ensures var w, e, m := Store(d), Exponent(d), Mantissa(d);
            && SingleSign(w) == Sign(d)
            && (874 <= e <= 896 ==> SingleExponent(w) == 0 && Fraction(w) == (BIT52 + m) / Pow2(926 - e))
            && (!(874 <= e <= 896) ==>
                  SingleExponent(w) == e / 0x400 * 0x80 + e % 0x80 && Fraction(w) == m / BIT29)
  {
    var s, e, m := Sign(d), Exponent(d), Mantissa(d);
    if 874 <= e <= 896 {
      NarrowedIs(e, m);
      hide Narrowed, Sign, Exponent, Mantissa;
      SingleFieldsOf(s, 0, Narrowed(e, m));
    } else {
      StoreOther(d);
      hide Sign, Exponent, Mantissa, Store;
      SingleFieldsOf(s, e / 0x400 * 0x80 + e % 0x80, m / BIT29);
    }
  }

  lemma Regrouped(q: nat, p: nat, g: nat)
    ensures q * p * g == q * (p * g) && (q + 1) * p * g == q * (p * g) + p * g
  {
    assert (q + 1) * p == q * p + p;
    assert (q * p + p) * g == q * p * g + p * g;
    assert q * p * g == q * (p * g);
  }

  lemma Scaled(s: nat, p: nat, q: nat, g: nat)
    requires q * p <= s < (q + 1) * p && g > 0
    ensures q * (p * g) <= s * g < q * (p * g) + p * g
  {
    var lo, hi := q * p, (q + 1) * p;
    Regrouped(q, p, g);
    Multiply(g, lo, s);
    Multiply(g, s + 1, hi);
    assert (s + 1) * g == s * g + g;
  }

  /** Cutting a significand to a multiple of 2^k is truncation, at any scale. */
  lemma CutAt(s: nat, k: nat, e: nat)
    ensures var q := s / Pow2(k);
            q * Pow2(k + e) <= s * Pow2(e) < q * Pow2(k + e) + Pow2(k + e)
  {
    Quotient(s, Pow2(k));
    Pow2Add(k, e);
    Scaled(s, Pow2(k), s / Pow2(k), Pow2(e));
  }

  lemma MultiplyBoth(a: nat, b: nat, c: nat, d: nat)
    requires a <= b && c <= d
    ensures a * c <= b * d
  {
    Multiply(a, c, d);
    Multiply(d, a, b);
  }

  lemma DenormalTruncates(d: Double)
    requires 874 <= Exponent(d) <= 896
    ensures Truncates(d)
  {
    hide Pow2;
    StoredFields(d);
    CutAt(BIT52 + Mantissa(d), 926 - Exponent(d), Exponent(d));
    hide Store, Sign, Exponent, Mantissa, SingleSign, SingleExponent, Fraction;
  }

  lemma NormalTruncates(d: Double)
    requires 897 <= Exponent(d) <= 1150
    ensures Truncates(d)
  {
    hide Pow2;
    StoredFields(d);
    var e, m := Exponent(d), Mantissa(d);
    CutAt(BIT52 + m, 29, e);
    Pow2Values();
    CutNormal(m);
    NormalExponent(e);
    hide Store, Sign, Exponent, Mantissa, SingleSign, SingleExponent, Fraction;
  }

  lemma CutNormal(m: nat)
    ensures (BIT52 + m) / BIT29 == BIT23 + m / BIT29
  {
  }

  lemma NormalExponent(e: nat)
    requires 897 <= e <= 1150
    ensures e / 0x400 * 0x80 + e % 0x80 == e - 896
  {
  }

  /** Below the range only what is stored as a zero is a truncation. */
  lemma TinyTruncatesIff(d: Double)
    requires Exponent(d) < 874
    ensures Truncates(d) <==> Exponent(d) % 0x80 == 0 && Mantissa(d) < BIT29
  {
    hide Pow2;
    StoredFields(d);
    TinyMagnitude(d);
    var w, e, m := Store(d), Exponent(d), Mantissa(d);
    LastPlaceAtLeast(w);
    var n := if SingleExponent(w) == 0 then Fraction(w) else BIT23 + Fraction(w);
    TinyZero(e, m);
    hide Store, Sign, Exponent, Mantissa, SingleSign, SingleExponent, Fraction, Magnitude, LastPlace;
    if n > 0 { Multiply(LastPlace(w), 1, n); }
    assert SingleMagnitude(w) == n * LastPlace(w);
    assert n == 0 <==> e % 0x80 == 0 && m < BIT29;
  }

  lemma TinyZero(e: nat, m: nat)
    requires e < 874
    ensures e / 0x400 * 0x80 + e % 0x80 == e % 0x80 < 0xFF && (m / BIT29 == 0 <==> m < BIT29)
  {
  }

  lemma LastPlaceAtLeast(w: Single)
    ensures LastPlace(w) >= Pow2(926) && (SingleExponent(w) == 0 ==> LastPlace(w) == Pow2(926))
  {
    hide Pow2;
    if SingleExponent(w) > 0 { Pow2Grows(926, SingleExponent(w) + 925); }
  }

  lemma TinyMagnitude(d: Double)
    requires Exponent(d) < 874
    ensures 0 <= Magnitude(d) < Pow2(926)
  {
    hide Pow2;
    var e, m := Exponent(d), Mantissa(d);
    var g := if e == 0 then Pow2(1) else 2 * Pow2(e);
    Pow2Values();
    Pow2Add(52, 874);
    Pow2Grows(if e == 0 then 1 else e + 1, 874);
    DoublePow2(1, e);
    hide Exponent, Mantissa;
    MultiplyBoth(BIT52, BIT52, g, Pow2(874));
    if e == 0 {
      Multiply(g, m + 1, BIT52);
      assert (m + 1) * g == m * g + g;
    } else {
      Multiply(Pow2(e), BIT52 + m + 1, 2 * BIT52);
      assert (BIT52 + m + 1) * Pow2(e) == (BIT52 + m) * Pow2(e) + Pow2(e);
    }
  }

  /** Above it no finite double is. */
  lemma HugeNeverTruncates(d: Double)
    requires 1150 < Exponent(d) < 0x7FF
    ensures !Truncates(d)
  {
    hide Pow2;
    var w := Store(d);
    if SingleExponent(w) < 0xFF {
      HugeMagnitude(d);
      LargestSingle(w);
    }
  }

  lemma LargestSingle(w: Single)
    requires SingleExponent(w) < 0xFF
    ensures SingleMagnitude(w) + LastPlace(w) <= Pow2(1203)
  {
    hide Pow2;
    var n := if SingleExponent(w) == 0 then Fraction(w) else BIT23 + Fraction(w);
    Pow2Grows(926, 1179);
    Pow2Grows(if SingleExponent(w) == 0 then 926 else SingleExponent(w) + 925, 1179);
    Pow2Add(24, 1179);
    Pow2Values();
    DoublePow2(1, 23);
    var p := LastPlace(w);
    assert SingleMagnitude(w) == n * p && n + 1 <= 2 * BIT23 && p <= Pow2(1179);
    hide SingleMagnitude, LastPlace, SingleExponent, Fraction;
    MultiplyBoth(n + 1, 2 * BIT23, p, Pow2(1179));
    assert (n + 1) * p == n * p + p;
  }

  lemma HugeMagnitude(d: Double)
    requires 1150 < Exponent(d) < 0x7FF
    ensures Magnitude(d) >= Pow2(1203)
  {
    hide Pow2;
    Pow2Values();
    Pow2Add(52, 1151);
    Pow2Grows(1151, Exponent(d));
    hide Exponent, Mantissa;
    MultiplyBoth(BIT52, BIT52 + Mantissa(d), Pow2(1151), Pow2(Exponent(d)));
  }

  /** The conversion truncates toward zero, with an error below one unit in the last
      place, exactly for biased exponents 874 to 1150, and below them for the doubles
      whose low exponent and high mantissa bits happen to be clear. */
  lemma TruncatesIff(d: Double)
    requires Exponent(d) < 0x7FF
    ensures Truncates(d) <==>
            874 <= Exponent(d) <= 1150 || (Exponent(d) < 874 && Exponent(d) % 0x80 == 0 && Mantissa(d) < BIT29)
  {
    hide Truncates;
    if Exponent(d) < 874 {
      TinyTruncatesIff(d);
    } else if Exponent(d) <= 896 {
      DenormalTruncates(d);
    } else if Exponent(d) <= 1150 {
      NormalTruncates(d);
    } else {
      HugeNeverTruncates(d);
    }
  }

  /** Infinities stay; a NaN stays one exactly when its payload reaches the 23 high bits. */
  lemma SpecialsStayIff(d: Double)
    requires Exponent(d) == 0x7FF
    ensures var w := Store(d);
            && SingleSign(w) == Sign(d) && SingleExponent(w) == 0xFF
            && (Mantissa(d) == 0 ==> Fraction(w) == 0)
            && (Mantissa(d) != 0 ==> (Fraction(w) != 0 <==> Mantissa(d) >= BIT29))
  {
    StoredFields(d);
  }
}
