/** Powers of two, remainders, and the bitwise operators on naturals. */
module Bits {

  function Pow2(n: nat): (p: nat)
    ensures p > 0
  {
    if n == 0 then 1 else 2 * Pow2(n - 1)
  }

  lemma {:induction false} Pow2Add(a: nat, b: nat)
    ensures Pow2(a + b) == Pow2(a) * Pow2(b)
  {
    if a > 0 {
      Pow2Add(a - 1, b);
      assert Pow2(a + b) == 2 * Pow2(a - 1 + b);
    }
  }

  lemma {:induction false} Pow2Monotone(a: nat, b: nat)
    requires a <= b
    ensures Pow2(a) <= Pow2(b)
    decreases b
  {
    if a < b { Pow2Monotone(a, b - 1); }
  }

  lemma {:induction false} BelowPow2(n: nat)
    ensures n < Pow2(n)
  {
    if n > 0 { BelowPow2(n - 1); }
  }

  // ----- remainders -----

  lemma QuotientIsUnique(q: int, m: int, r: int)
    requires 0 <= r < m
    ensures (q * m + r) / m == q && (q * m + r) % m == r
  {
    var x := q * m + r;
    var d := x / m - q;
    assert x == (x / m) * m + x % m;
    assert d * m == r - x % m by {
      assert (x / m - q) * m == (x / m) * m - q * m;
    }
    assert d >= 1 ==> d * m >= m;
    assert d <= -1 ==> d * m <= -m;
  }

  /** Adding a multiple of the modulus changes nothing. */
  lemma ModShift(x: int, q: int, m: int)
    requires m > 0
    ensures (x + q * m) % m == x % m
  {
    assert x + q * m == (x / m + q) * m + x % m by {
      assert (x / m + q) * m == (x / m) * m + q * m;
    }
    QuotientIsUnique(x / m + q, m, x % m);
  }

  lemma ModOfMultiple(x: int, m: int, k: int)
    requires m > 0 && k > 0
    ensures m * k > 0
    ensures (x % (m * k)) % m == x % m
  {
    var mk := m * k;
    var q := x / mk;
    assert x == x % mk + q * mk;
    assert q * mk == (q * k) * m;
    ModShift(x % mk, q * k, m);
  }

  /** Truncating to the wide modulus first is harmless. */
  lemma {:induction false} ModOfMod(x: int, wide: nat, narrow: nat)
    requires narrow <= wide
    ensures (x % Pow2(wide)) % Pow2(narrow) == x % Pow2(narrow)
  {
    Pow2Add(narrow, wide - narrow);
    ModOfMultiple(x, Pow2(narrow), Pow2(wide - narrow));
  }

  lemma ModAdd(x: int, y: int, m: int)
    requires m > 0
    ensures (x + y) % m == (x % m + y % m) % m
  {
    assert x + y == (x % m + y % m) + (x / m + y / m) * m by {
      assert (x / m + y / m) * m == (x / m) * m + (y / m) * m;
    }
    ModShift(x % m + y % m, x / m + y / m, m);
  }

  lemma ModSub(x: int, y: int, m: int)
    requires m > 0
    ensures (x - y) % m == (x % m - y % m) % m
  {
    assert x - y == (x % m - y % m) + (x / m - y / m) * m by {
      assert (x / m - y / m) * m == (x / m) * m - (y / m) * m;
    }
    ModShift(x % m - y % m, x / m - y / m, m);
  }

  lemma {:induction false} ModMulLeft(x: int, y: int, m: int)
    requires m > 0
    ensures (x * y) % m == ((x % m) * y) % m
  {
    var q, r := x / m, x % m;
    assert x * y == r * y + (q * y) * m by {
      assert x == q * m + r;
      assert (q * m + r) * y == (q * m) * y + r * y;
      assert (q * m) * y == (q * y) * m;
    }
    ModShift(r * y, q * y, m);
  }

  lemma {:induction false} ModMul(x: int, y: int, m: int)
    requires m > 0
    ensures (x * y) % m == ((x % m) * (y % m)) % m
  {
    var r := x % m;
    ModMulLeft(x, y, m);
    ModMulLeft(y, r, m);
    assert r * y == y * r && (y % m) * r == r * (y % m);
  }

  /** Splitting a remainder by 2m into its low digit and the rest. */
  lemma ModDouble(x: nat, m: nat)
    requires m > 0
    ensures x % (2 * m) == x % 2 + 2 * ((x / 2) % m)
  {
    var h := x / 2;
    assert x == (h / m) * (2 * m) + (x % 2 + 2 * (h % m)) by {
      assert h == (h / m) * m + h % m;
      assert (h / m) * (2 * m) == 2 * ((h / m) * m);
    }
    QuotientIsUnique(h / m, 2 * m, x % 2 + 2 * (h % m));
  }

  lemma MulMonotone(a: int, b: int, c: int)
    requires a <= b && 0 <= c
    ensures a * c <= b * c
  {
  }

  lemma QuotientBounds(x: nat, y: nat)
    requires y > 0
    ensures 0 <= x / y <= x
  {
    var q := x / y;
    assert x == q * y + x % y;
    if q < 0 {
      MulMonotone(q, -1, y);
      assert false;
    }
    MulMonotone(1, y, q);
  }

  function Quotient(x: nat, y: nat): (q: nat)
    requires y > 0
    ensures q <= x
  {
    QuotientBounds(x, y);
    x / y
  }

  // ----- two's complement -----

  function Signed(w: nat, x: int): int
    requires w >= 1
  {
    if x >= Pow2(w - 1) then x - Pow2(w) else x
  }

  /** A number that fits a signed w-bit word is recovered from its residue. */
  lemma SignedOfResidue(w: nat, s: int)
    requires w >= 1
    requires 0 - Pow2(w - 1) <= s < Pow2(w - 1)
    ensures Signed(w, s % Pow2(w)) == s
  {
    if s >= 0 {
      QuotientIsUnique(0, Pow2(w), s);
    } else {
      QuotientIsUnique(-1, Pow2(w), s + Pow2(w));
    }
  }

  lemma {:induction false} SignedResidue(w: nat, x: int, narrow: nat)
    requires 1 <= w && narrow <= w
    ensures Signed(w, x) % Pow2(narrow) == x % Pow2(narrow)
  {
    Pow2Add(narrow, w - narrow);
    var k := Pow2(w - narrow);
    assert x - Pow2(w) == x + (-k) * Pow2(narrow);
    ModShift(x, -k, Pow2(narrow));
  }

  // ----- bitwise operators -----

  datatype Logic = LAnd | LOr | LXor

  function Digit(op: Logic, x: nat, y: nat): (d: nat)
    requires x < 2 && y < 2
    ensures d < 2
  {
    match op
    case LAnd => if x + y == 2 then 1 else 0
    case LOr => if x + y == 0 then 0 else 1
    case LXor => if x == y then 0 else 1
  }

  function Bitwise(op: Logic, x: nat, y: nat): nat
    decreases x + y
  {
    if x == 0 && y == 0 then 0
    else Digit(op, x % 2, y % 2) + 2 * Bitwise(op, x / 2, y / 2)
  }

  lemma LowDigit(d: nat, h: nat)
    requires d < 2
    ensures (d + 2 * h) % 2 == d && (d + 2 * h) / 2 == h
  {
  }

  lemma {:induction false} BitwiseStep(op: Logic, x: nat, y: nat)
    ensures Bitwise(op, x, y) == Digit(op, x % 2, y % 2) + 2 * Bitwise(op, x / 2, y / 2)
    ensures Bitwise(op, x, y) % 2 == Digit(op, x % 2, y % 2)
    ensures Bitwise(op, x, y) / 2 == Bitwise(op, x / 2, y / 2)
  {
    LowDigit(Digit(op, x % 2, y % 2), Bitwise(op, x / 2, y / 2));
  }

  lemma {:induction false} BitwiseRange(op: Logic, x: nat, y: nat, w: nat)
    requires x < Pow2(w) && y < Pow2(w)
    ensures Bitwise(op, x, y) < Pow2(w)
  {
    if w > 0 { BitwiseRange(op, x / 2, y / 2, w - 1); }
  }

  /** A bitwise operator works on the low m digits independently of the rest. */
  lemma {:induction false} Pow2Double(m: nat)
    ensures if m == 0 then Pow2(m) == 1 else Pow2(m) == 2 * Pow2(m - 1)
  {
  }

  lemma {:induction false} BitwiseMod(op: Logic, x: nat, y: nat, m: nat)
    ensures Bitwise(op, x, y) % Pow2(m) == Bitwise(op, x % Pow2(m), y % Pow2(m))
  {
    hide Bitwise, Digit, Pow2;
    Pow2Double(m);
    if m == 0 {
      BitwiseStep(op, 0, 0);
    } else {
      var p := Pow2(m - 1);
      var z := Bitwise(op, x, y);
      ModDouble(z, p);
      ModDouble(x, p);
      ModDouble(y, p);
      BitwiseStep(op, x, y);
      BitwiseMod(op, x / 2, y / 2, m - 1);
      BitwiseStep(op, x % Pow2(m), y % Pow2(m));
      assert (x % Pow2(m)) / 2 == (x / 2) % p && (x % Pow2(m)) % 2 == x % 2;
      assert (y % Pow2(m)) / 2 == (y / 2) % p && (y % Pow2(m)) % 2 == y % 2;
    }
  }
}
