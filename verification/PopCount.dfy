/** The mask, shift and multiply idiom counts set bits, for any whole number of bytes. */
module PopCount {
  import opened Bits

  function CountBits(x: nat): nat {
    if x == 0 then 0 else x % 2 + CountBits(x / 2)
  }

  /** The byte b repeated n times. */
  function Splat(n: nat, b: nat): nat {
    if n == 0 then 0 else b + 256 * Splat(n - 1, b)
  }

  // ----- masks -----

  lemma {:induction false} AndMask(c: nat, x: nat)
    ensures Bitwise(LAnd, x, Pow2(c) - 1) == x % Pow2(c)
  {
    BitwiseStep(LAnd, x, Pow2(c) - 1);
    if c == 0 {
      AndZero(x);
    } else {
      AndMask(c - 1, x / 2);
      ModDouble(x, Pow2(c - 1));
      LowDigit(1, Pow2(c - 1) - 1);
    }
  }

  lemma {:induction false} AndZero(x: nat)
    ensures Bitwise(LAnd, x, 0) == 0
  {
    if x > 0 {
      BitwiseStep(LAnd, x, 0);
      AndZero(x / 2);
    }
  }

  function Shifted(x: nat, j: nat): nat { Quotient(x, Pow2(j)) }

  /** Low and high digits of a bitwise and do not meet. */
  lemma {:induction false} AndSplit(j: nat, x: nat, y: nat)
    ensures Bitwise(LAnd, x, y)
         == Bitwise(LAnd, x % Pow2(j), y % Pow2(j)) + Pow2(j) * Bitwise(LAnd, Shifted(x, j), Shifted(y, j))
  {
    hide Bitwise;
    BitwiseMod(LAnd, x, y, j);
    AndShifted(j, x, y);
    ShiftedRest(Bitwise(LAnd, x, y), j);
  }

  lemma {:induction false} ShiftedRest(z: nat, j: nat)
    ensures z == z % Pow2(j) + Pow2(j) * Shifted(z, j)
  {
    var q, m := z / Pow2(j), Pow2(j);
    assert z == q * m + z % m;
    assert q * m == m * q;
  }

  lemma {:induction false} AndShifted(j: nat, x: nat, y: nat)
    ensures Shifted(Bitwise(LAnd, x, y), j) == Bitwise(LAnd, Shifted(x, j), Shifted(y, j))
  {
    if j > 0 {
      BitwiseStep(LAnd, x, y);
      AndShifted(j - 1, x / 2, y / 2);
      ShiftedStep(x, j);
      ShiftedStep(y, j);
      ShiftedStep(Bitwise(LAnd, x, y), j);
    } else {
      ShiftedZero(x);
      ShiftedZero(y);
      ShiftedZero(Bitwise(LAnd, x, y));
    }
  }

  lemma {:induction false} ShiftedZero(x: nat)
    ensures Shifted(x, 0) == x
  {
    QuotientIsUnique(x, 1, 0);
  }

  lemma {:induction false} ShiftedStep(x: nat, j: nat)
    requires j > 0
    ensures Shifted(x, j) == Shifted(x / 2, j - 1)
  {
    DivTwice(x, Pow2(j - 1));
  }

  lemma DivTwice(x: nat, m: nat)
    requires m > 0
    ensures x / (2 * m) == (x / 2) / m
  {
    var h := x / 2;
    assert h == (h / m) * m + h % m;
    assert (h / m) * (2 * m) == 2 * ((h / m) * m);
    assert x == (h / m) * (2 * m) + (x % 2 + 2 * (h % m));
    QuotientIsUnique(h / m, 2 * m, x % 2 + 2 * (h % m));
  }

  /** A mask whose lowest field of j digits keeps c of them. */
  lemma {:induction false} MaskStep(c: nat, j: nat, x: nat, m: nat)
    requires c <= j
    ensures Bitwise(LAnd, x, Pow2(c) - 1 + Pow2(j) * m) == x % Pow2(c) + Pow2(j) * Bitwise(LAnd, Shifted(x, j), m)
  {
    var low := Pow2(c) - 1;
    Pow2Monotone(c, j);
    QuotientIsUnique(m, Pow2(j), low);
    AndSplit(j, x, low + Pow2(j) * m);
    AndMask(c, x % Pow2(j));
    ModOfMod(x, j, c);
  }

  lemma SmallPowers()
    ensures Pow2(1) == 2 && Pow2(2) == 4 && Pow2(4) == 16 && Pow2(8) == 256
  {
    assert Pow2(3) == 8 && Pow2(5) == 32 && Pow2(6) == 64 && Pow2(7) == 128;
  }

  /** The field (1 << c) - 1 repeated k times, every j digits. */
  function Fields(c: nat, j: nat, k: nat): (r: nat) {
    if k == 0 then 0 else Pow2(c) - 1 + Pow2(j) * Fields(c, j, k - 1)
  }

  lemma {:induction false} MasksAreFields(n: nat)
    ensures Splat(n, 0x55) == Fields(1, 2, 4 * n)
    ensures Splat(n, 0x33) == Fields(2, 4, 2 * n)
    ensures Splat(n, 0x0F) == Fields(4, 8, n)
    ensures Splat(n, 0x01) == Fields(1, 8, n)
  {
    SmallPowers();
    if n > 0 {
      MasksAreFields(n - 1);
      FieldsTwice(1, 2, 4 * n - 2);
      FieldsTwice(1, 2, 4 * n - 4);
      FieldsTwice(2, 4, 2 * n - 2);
    }
  }

  /** The masks with their lowest field split off. */
  lemma {:induction false} FieldsNext(k: nat)
    requires k > 0
    ensures Fields(1, 2, k) == 1 + 4 * Fields(1, 2, k - 1)
    ensures Fields(2, 4, k) == 3 + 16 * Fields(2, 4, k - 1)
    ensures Fields(4, 8, k) == 15 + 256 * Fields(4, 8, k - 1)
  {
    SmallPowers();
  }

  /** What each mask keeps of the lowest field. */
  lemma {:induction false} MaskLowest(x: nat, m: nat)
    ensures Bitwise(LAnd, x, 1 + 4 * m) == x % 2 + 4 * Bitwise(LAnd, x / 4, m)
    ensures Bitwise(LAnd, x, 3 + 16 * m) == x % 4 + 16 * Bitwise(LAnd, x / 16, m)
    ensures Bitwise(LAnd, x, 15 + 256 * m) == x % 16 + 256 * Bitwise(LAnd, x / 256, m)
  {
    hide Bitwise;
    SmallPowers();
    ShiftedByFields(x);
    MaskStep(1, 2, x, m);
    MaskStep(2, 4, x, m);
    MaskStep(4, 8, x, m);
  }

  lemma {:induction false} ShiftedByFields(x: nat)
    ensures Shifted(x, 2) == x / 4 && Shifted(x, 4) == x / 16 && Shifted(x, 8) == x / 256
  {
    SmallPowers();
  }

  lemma FieldsTwice(c: nat, j: nat, k: nat)
    ensures Fields(c, j, k + 2) == Pow2(c) - 1 + Pow2(j) * (Pow2(c) - 1 + Pow2(j) * Fields(c, j, k))
  {
    assert Fields(c, j, k + 1) == Pow2(c) - 1 + Pow2(j) * Fields(c, j, k);
  }

  // ----- digits -----

  lemma {:induction false} Digits4(x: nat)
    ensures x / 2 / 2 == x / 4 && x / 2 % 2 == x % 4 / 2 && x % 4 % 2 == x % 2 && x / 2 / 4 == x / 4 / 2
    ensures x == x % 4 + 4 * (x / 4)
  {
  }

  lemma {:induction false} Digits16(x: nat)
    ensures x % 16 % 4 == x % 4 && x % 16 / 4 == x / 4 % 4 && x / 4 / 4 == x / 16
  {
  }

  lemma {:induction false} Digits256(x: nat)
    ensures x % 256 % 16 == x % 16 && x % 256 / 16 == x / 16 % 16 && x / 16 / 16 == x / 256
  {
  }

  // ----- counting within fields -----

  function Pop2(d: nat): (p: nat)
    requires d < 4
    ensures p <= 2
  {
    d - d / 2
  }

  function Pop4(d: nat): (p: nat)
    requires d < 16
    ensures p <= 4
  {
    Pop2(d % 4) + Pop2(d / 4)
  }

  function Pop8(d: nat): (p: nat)
    requires d < 256
    ensures p <= 8
  {
    Pop4(d % 16) + Pop4(d / 16)
  }

  function PairCounts(x: nat, k: nat): nat {
    if k == 0 then 0 else Pop2(x % 4) + 4 * PairCounts(x / 4, k - 1)
  }

  function NibbleCounts(x: nat, k: nat): nat {
    if k == 0 then 0 else Pop4(x % 16) + 16 * NibbleCounts(x / 16, k - 1)
  }

  function ByteCounts(x: nat, k: nat): nat {
    if k == 0 then 0 else Pop8(x % 256) + 256 * ByteCounts(x / 256, k - 1)
  }

  /** i - ((i >> 1) & 0x55..): no field borrows from the next. */
  lemma {:induction false} PairStep(x: nat, k: nat)
    requires x < Pow2(2 * k)
    ensures x - Bitwise(LAnd, x / 2, Fields(1, 2, k)) == PairCounts(x, k)
  {
    hide Bitwise, Fields;
    if k == 0 {
      AndZero(0);
      NoFields(x);
    } else {
      SmallPowers();
      Pow2Add(2, 2 * (k - 1));
      Digits4(x);
      PairStep(x / 4, k - 1);
      FieldsNext(k);
      MaskLowest(x / 2, Fields(1, 2, k - 1));
    }
  }

  lemma {:induction false} NoFields(x: nat)
    ensures Fields(1, 2, 0) == Fields(2, 4, 0) == Fields(4, 8, 0) == 0
    ensures PairCounts(x, 0) == NibbleCounts(x, 0) == ByteCounts(x, 0) == 0
  {
  }

  lemma {:induction false} PairDigits(d0: nat, d1: nat, y: nat)
    requires d0 < 4 && d1 < 4
    ensures var i := d0 + 4 * d1 + 16 * y;
            i % 4 == d0 && i / 4 == d1 + 4 * y && i / 4 % 4 == d1 && i / 16 == y && i / 4 / 16 == y / 4
  {
  }

  lemma {:induction false} NibbleMask(d0: nat, d1: nat, y: nat, f: nat)
    requires d0 < 4 && d1 < 4
    ensures var i := d0 + 4 * d1 + 16 * y;
            Bitwise(LAnd, i, 3 + 16 * f) + Bitwise(LAnd, i / 4, 3 + 16 * f)
            == d0 + d1 + 16 * (Bitwise(LAnd, y, f) + Bitwise(LAnd, y / 4, f))
  {
    hide Bitwise;
    var i := d0 + 4 * d1 + 16 * y;
    PairDigits(d0, d1, y);
    MaskLowest(i, f);
    MaskLowest(i / 4, f);
  }

  lemma {:induction false} Pop4Split(x: nat)
    ensures Pop4(x % 16) == Pop2(x % 4) + Pop2(x / 4 % 4)
  {
    Digits16(x);
  }

  /** (i & 0x33..) + ((i >> 2) & 0x33..) on pair counts: no carry leaves a nibble. */
  lemma {:induction false} NibbleStep(x: nat, k: nat)
    ensures var i := PairCounts(x, 2 * k);
            Bitwise(LAnd, i, Fields(2, 4, k)) + Bitwise(LAnd, i / 4, Fields(2, 4, k)) == NibbleCounts(x, k)
  {
    hide Bitwise, Fields, PairCounts, Pop2, Pop4;
    if k == 0 {
      AndZero(0);
      NoFields(x);
    } else {
      PairCountsTwice(x, 2 * (k - 1));
      Pop4Split(x);
      NibbleStep(x / 16, k - 1);
      FieldsNext(k);
      NibbleMask(Pop2(x % 4), Pop2(x / 4 % 4), PairCounts(x / 16, 2 * (k - 1)), Fields(2, 4, k - 1));
    }
  }

  lemma {:induction false} PairCountsTwice(x: nat, k: nat)
    ensures PairCounts(x, k + 2) == Pop2(x % 4) + 4 * Pop2(x / 4 % 4) + 16 * PairCounts(x / 16, k)
  {
    assert PairCounts(x / 4, k + 1) == Pop2(x / 4 % 4) + 4 * PairCounts(x / 4 / 4, k);
    Digits16(x);
  }

  lemma {:induction false} NibbleCountsTwice(x: nat, k: nat)
    ensures NibbleCounts(x, k + 2) == Pop4(x % 16) + 16 * Pop4(x / 16 % 16) + 256 * NibbleCounts(x / 256, k)
  {
    assert NibbleCounts(x / 16, k + 1) == Pop4(x / 16 % 16) + 16 * NibbleCounts(x / 16 / 16, k);
    Digits256(x);
  }

  lemma {:induction false} LowNibble(d: nat, h: nat)
    requires d < 16
    ensures (d + 16 * h) % 16 == d && (d + 16 * h) / 16 == h
  {
  }

  lemma {:induction false} NibbleCountsLow(x: nat, k: nat)
    ensures NibbleCounts(x, k) % 16 <= 4
  {
    if k > 0 { LowNibble(Pop4(x % 16), NibbleCounts(x / 16, k - 1)); }
  }

  lemma {:induction false} ByteMask(e0: nat, e1: nat, y: nat, f: nat)
    requires e0 <= 4 && e1 <= 4 && y % 16 <= 4
    ensures var i := e0 + 16 * e1 + 256 * y;
            Bitwise(LAnd, i + i / 16, 15 + 256 * f) == e0 + e1 + 256 * Bitwise(LAnd, y + y / 16, f)
            && i + i / 16 <= 255 + 256 * (y + y / 16)
  {
    hide Bitwise;
    var i := e0 + 16 * e1 + 256 * y;
    ByteSum(e0, e1, y);
    MaskLowest(i + i / 16, f);
  }

  lemma {:induction false} Pop8Split(x: nat)
    ensures Pop8(x % 256) == Pop4(x % 16) + Pop4(x / 16 % 16)
  {
    Digits256(x);
  }

  /** (i + (i >> 4)) & 0x0F.. on nibble counts: the stray nibble above is masked off, and the sum
      itself stays inside the word. */
  lemma {:induction false} ByteStep(x: nat, k: nat)
    ensures var i := NibbleCounts(x, 2 * k);
            Bitwise(LAnd, i + i / 16, Fields(4, 8, k)) == ByteCounts(x, k) && i + i / 16 < Pow2(8 * k)
  {
    hide Bitwise, Fields, NibbleCounts, Pop4, Pop8;
    if k == 0 {
      AndZero(0);
      NoFields(x);
    } else {
      var y := NibbleCounts(x / 256, 2 * (k - 1));
      NibbleCountsTwice(x, 2 * (k - 1));
      NibbleCountsLow(x / 256, 2 * (k - 1));
      Pop8Split(x);
      ByteStep(x / 256, k - 1);
      FieldsNext(k);
      ByteMask(Pop4(x % 16), Pop4(x / 16 % 16), y, Fields(4, 8, k - 1));
      WordGrows(k);
    }
  }

  lemma {:induction false} WordGrows(k: nat)
    requires k > 0
    ensures Pow2(8 * k) == 256 * Pow2(8 * (k - 1))
  {
    SmallPowers();
    Pow2Add(8, 8 * (k - 1));
  }

  lemma {:induction false} ByteSum(e0: nat, e1: nat, y: nat)
    requires e0 <= 4 && e1 <= 4 && y % 16 <= 4
    ensures var i := e0 + 16 * e1 + 256 * y;
            (i + i / 16) % 16 == e0 + e1 && (i + i / 16) / 256 == y + y / 16
            && i + i / 16 <= 255 + 256 * (y + y / 16)
  {
    var i := e0 + 16 * e1 + 256 * y;
    LowNibble(e0, e1 + 16 * y);
    var h, l := y / 16, y % 16;
    assert i + i / 16 == (e0 + e1) + 16 * (e1 + l + 16 * (y + h));
    LowNibble(e0 + e1, e1 + l + 16 * (y + h));
  }

  // ----- adding the bytes up -----

  function Total(x: nat, n: nat): nat {
    if n == 0 then 0 else Pop8(x % 256) + Total(x / 256, n - 1)
  }

  lemma {:induction false} TotalBound(x: nat, n: nat)
    ensures Total(x, n) <= 8 * n
  {
    hide Pop8;
    if n > 0 { TotalBound(x / 256, n - 1); }
  }

  lemma {:induction false} PopTwo(x: nat)
    ensures CountBits(x) == Pop2(x % 4) + CountBits(x / 4)
  {
    Digits4(x);
    assert CountBits(x) == x % 2 + CountBits(x / 2);
    assert CountBits(x / 2) == x / 2 % 2 + CountBits(x / 2 / 2);
  }

  lemma {:induction false} PopFour(x: nat)
    ensures CountBits(x) == Pop4(x % 16) + CountBits(x / 16)
  {
    PopTwo(x);
    PopTwo(x / 4);
    Digits16(x);
  }

  lemma {:induction false} PopEight(x: nat)
    ensures CountBits(x) == Pop8(x % 256) + CountBits(x / 256)
  {
    PopFour(x);
    PopFour(x / 16);
    Digits256(x);
  }

  lemma {:induction false} TotalCounts(x: nat, n: nat)
    requires x < Pow2(8 * n)
    ensures Total(x, n) == CountBits(x)
  {
    SmallPowers();
    if n > 0 {
      PopEight(x);
      WordGrows(n);
      TotalCounts(x / 256, n - 1);
    }
  }

  /** The running sums of the bytes, one per byte, starting from acc. */
  function Sums(x: nat, n: nat, acc: nat): nat {
    if n == 0 then 0 else acc + Pop8(x % 256) + 256 * Sums(x / 256, n - 1, acc + Pop8(x % 256))
  }

  lemma {:induction false} OnesTop(n: nat)
    ensures Splat(n + 1, 1) == Splat(n, 1) + Pow2(8 * n)
  {
    SmallPowers();
    if n > 0 {
      OnesTop(n - 1);
      Pow2Add(8, 8 * (n - 1));
    }
  }

  /** Multiplying by 0x0101.. leaves the running sums, up to whole words. */
  lemma {:induction false} MultiplyGivesSums(x: nat, n: nat, acc: nat) returns (q: nat)
    ensures (ByteCounts(x, n) + acc) * Splat(n, 1) == Sums(x, n, acc) + Pow2(8 * n) * q
  {
    hide Pow2, Pop8;
    if n == 0 {
      q := 0;
    } else {
      var c, v, m := Pop8(x % 256), ByteCounts(x / 256, n - 1), Splat(n - 1, 1);
      var r := MultiplyGivesSums(x / 256, n - 1, acc + c);
      var p := Pow2(8 * (n - 1));
      WordGrows(n);
      OnesTop(n - 1);
      q := r + v;
      assert Splat(n, 1) == 1 + 256 * m && Splat(n, 1) == m + p;
      SumsAlgebra(acc + c, v, m, p, Sums(x / 256, n - 1, acc + c), r);
    }
  }

  lemma SumsAlgebra(a: nat, v: nat, m: nat, p: nat, s: nat, r: nat)
    requires (v + a) * m == s + p * r && 1 + 256 * m == m + p
    ensures (a + 256 * v) * (1 + 256 * m) == a + 256 * s + 256 * p * (r + v)
  {
    assert (a + 256 * v) * (1 + 256 * m) == a * (1 + 256 * m) + 256 * v * (m + p);
    assert a * (1 + 256 * m) == a + 256 * (a * m);
    assert 256 * v * (m + p) == 256 * (v * m) + 256 * p * v;
    assert (v + a) * m == v * m + a * m;
    assert 256 * p * (r + v) == 256 * (p * r) + 256 * p * v;
  }

  lemma {:induction false} SumsLast(x: nat, acc: nat)
    ensures Sums(x, 1, acc) == acc + Pop8(x % 256) && Total(x, 1) == Pop8(x % 256)
  {
    assert Sums(x / 256, 0, acc + Pop8(x % 256)) == 0;
    assert Total(x / 256, 0) == 0;
  }

  /** No running sum reaches 256, so the top byte is the whole sum. */
  lemma {:induction false} TopSum(x: nat, n: nat, acc: nat) returns (low: nat)
    requires n >= 1 && acc + 8 * n < 256
    ensures low < Pow2(8 * (n - 1)) && Sums(x, n, acc) == low + Pow2(8 * (n - 1)) * (acc + Total(x, n))
  {
    hide Pow2, Pop8, Sums, Total;
    if n == 1 {
      low := 0;
      SumsLast(x, acc);
      assert Pow2(0) == 1 by { OnePower(); }
    } else {
      var c := Pop8(x % 256);
      SumsStep(x, n, acc);
      var l := TopSum(x / 256, n - 1, acc + c);
      WordGrows(n - 1);
      low := acc + c + 256 * l;
      TopAlgebra(Pow2(8 * (n - 2)), acc + c + Total(x / 256, n - 1));
    }
  }

  lemma OnePower()
    ensures Pow2(0) == 1
  {
  }

  lemma {:induction false} SumsStep(x: nat, n: nat, acc: nat)
    requires n > 0
    ensures Sums(x, n, acc) == acc + Pop8(x % 256) + 256 * Sums(x / 256, n - 1, acc + Pop8(x % 256))
    ensures Total(x, n) == Pop8(x % 256) + Total(x / 256, n - 1)
  {
  }

  lemma TopAlgebra(p: nat, t: nat)
    ensures 256 * (p * t) == (256 * p) * t
  {
  }

  lemma {:induction false} TopByte(x: nat, n: nat)
    requires 1 <= n < 32
    ensures ((ByteCounts(x, n) * Splat(n, 1)) % Pow2(8 * n)) / Pow2(8 * n - 8) == Total(x, n)
  {
    hide Pow2, ByteCounts, Splat, Sums, Total;
    var q := MultiplyGivesSums(x, n, 0);
    var low := TopSum(x, n, 0);
    TotalBound(x, n);
    WordGrows(n);
    TopOfWord(ByteCounts(x, n) * Splat(n, 1), Sums(x, n, 0), Pow2(8 * n - 8), q, low, Total(x, n));
  }

  lemma {:induction false} TopOfWord(z: nat, s: nat, p: nat, q: nat, low: nat, t: nat)
    requires z == s + (256 * p) * q && s == low + p * t && low < p && t < 256
    ensures 256 * p > 0 && p > 0 && (z % (256 * p)) / p == t
  {
    MulMonotone(t, 255, p);
    assert p * t == t * p && (256 * p) * q == q * (256 * p);
    QuotientIsUnique(q, 256 * p, s);
    QuotientIsUnique(t, p, low);
  }

  lemma {:induction false} NibbleCountsFit(x: nat, k: nat)
    ensures NibbleCounts(x, k) < Pow2(4 * k)
  {
    SmallPowers();
    if k > 0 {
      NibbleCountsFit(x / 16, k - 1);
      Pow2Add(4, 4 * (k - 1));
    }
  }

  // ----- the idiom on words of n bytes, every operation wrapping at the word size -----

  function PairsOf(n: nat, x: nat): nat {
    (x - Bitwise(LAnd, x / 2, Splat(n, 0x55))) % Pow2(8 * n)
  }

  function NibblesOf(n: nat, i: nat): nat {
    (Bitwise(LAnd, i, Splat(n, 0x33)) + Bitwise(LAnd, i / 4, Splat(n, 0x33))) % Pow2(8 * n)
  }

  function BytesOf(n: nat, i: nat): nat {
    Bitwise(LAnd, (i + i / 16) % Pow2(8 * n), Splat(n, 0x0F))
  }

  function TopOf(n: nat, i: nat): nat
    requires n >= 1
  {
    Quotient((i * Splat(n, 0x01)) % Pow2(8 * n), Pow2(8 * n - 8))
  }

  lemma SmallResidue(x: nat, w: nat)
    requires x < w
    ensures x % w == x
  {
    QuotientIsUnique(0, w, x);
  }

  lemma {:induction false} PairCountsFit(x: nat, k: nat)
    ensures PairCounts(x, k) < Pow2(2 * k)
  {
    SmallPowers();
    if k > 0 {
      PairCountsFit(x / 4, k - 1);
      Pow2Add(2, 2 * (k - 1));
    }
  }

  lemma {:induction false} PairsStage(n: nat, x: nat)
    requires x < Pow2(8 * n)
    ensures PairsOf(n, x) == PairCounts(x, 4 * n)
  {
    hide Bitwise, Pow2, Splat, Fields, PairCounts;
    MasksAreFields(n);
    PairStep(x, 4 * n);
    PairCountsFit(x, 4 * n);
    SmallResidue(PairCounts(x, 4 * n), Pow2(8 * n));
  }

  lemma {:induction false} NibblesStage(n: nat, x: nat)
    ensures NibblesOf(n, PairCounts(x, 4 * n)) == NibbleCounts(x, 2 * n)
  {
    hide Bitwise, Pow2, Splat, Fields, PairCounts, NibbleCounts;
    MasksAreFields(n);
    NibbleStep(x, 2 * n);
    NibbleCountsFit(x, 2 * n);
    SmallResidue(NibbleCounts(x, 2 * n), Pow2(8 * n));
  }

  lemma {:induction false} BytesStage(n: nat, x: nat)
    ensures BytesOf(n, NibbleCounts(x, 2 * n)) == ByteCounts(x, n)
  {
    hide Bitwise, Pow2, Splat, Fields, NibbleCounts, ByteCounts;
    MasksAreFields(n);
    ByteStep(x, n);
    SmallResidue(NibbleCounts(x, 2 * n) + NibbleCounts(x, 2 * n) / 16, Pow2(8 * n));
  }

  lemma {:induction false} TopStage(n: nat, x: nat)
    requires 1 <= n < 32
    ensures TopOf(n, ByteCounts(x, n)) == Total(x, n)
  {
    hide Pow2, Splat, ByteCounts, Total;
    TopByte(x, n);
  }

  /** It counts the set bits of every word of at most 31 bytes. */
  lemma {:induction false} IdiomCounts(n: nat, x: nat)
    requires 1 <= n < 32 && x < Pow2(8 * n)
    ensures TopOf(n, BytesOf(n, NibblesOf(n, PairsOf(n, x)))) == CountBits(x)
  {
    hide PairsOf, NibblesOf, BytesOf, TopOf, PairCounts, NibbleCounts, ByteCounts, CountBits, Total, Pow2;
    PairsStage(n, x);
    NibblesStage(n, x);
    BytesStage(n, x);
    TopStage(n, x);
    TotalCounts(x, n);
  }
}
