/** When an operation may be carried out on the low m bits of its operands. */
module Narrowing {
  import opened Bits
  import opened Ir

  /** What must hold of the left operand of `op` to evaluate it at width m instead of n. */
  predicate LeftFits(op: BinOp, n: nat, m: nat, x: Val)
    requires n >= 1 && m >= 1
  {
    x.Int? ==>
      match op
      case LShr => x.n < Pow2(m)
      case UDiv => x.n < Pow2(m)
      case URem => x.n < Pow2(m)
      case AShr => FitsSigned(m, Signed(n, x.n))
      case _ => true
  }

  predicate RightFits(op: BinOp, m: nat, y: Val) {
    y.Int? ==>
      if IsShift(op) then y.n < m
      else if IsDivision(op) then y.n < Pow2(m)
      else true
  }

  lemma {:induction false} SmallMod(x: nat, m: nat)
    requires x < Pow2(m)
    ensures x % Pow2(m) == x
  {
    QuotientIsUnique(0, Pow2(m), x);
  }

  lemma {:induction false} ShiftAmountFits(y: nat, m: nat)
    requires y < m
    ensures y % Pow2(m) == y
  {
    BelowPow2(m);
    SmallMod(y, m);
  }

  lemma {:induction false} NarrowSum(n: nat, m: nat, x: nat, y: nat)
    requires m <= n
    ensures ((x + y) % Pow2(n)) % Pow2(m) == (x % Pow2(m) + y % Pow2(m)) % Pow2(m)
    ensures ((x - y) % Pow2(n)) % Pow2(m) == (x % Pow2(m) - y % Pow2(m)) % Pow2(m)
  {
    hide Pow2;
    ModOfMod(x + y, n, m);
    ModAdd(x, y, Pow2(m));
    ModOfMod(x - y, n, m);
    ModSub(x, y, Pow2(m));
  }

  lemma {:induction false} NarrowProduct(n: nat, m: nat, x: nat, y: nat)
    requires m <= n
    ensures ((x * y) % Pow2(n)) % Pow2(m) == ((x % Pow2(m)) * (y % Pow2(m))) % Pow2(m)
  {
    hide Pow2;
    ModOfMod(x * y, n, m);
    ModMul(x, y, Pow2(m));
  }

  lemma {:induction false} NarrowShl(n: nat, m: nat, x: nat, s: nat)
    requires m <= n
    ensures ((x * Pow2(s)) % Pow2(n)) % Pow2(m) == ((x % Pow2(m)) * Pow2(s)) % Pow2(m)
  {
    hide Pow2;
    NarrowProduct(n, m, x, Pow2(s));
    ModMul(x % Pow2(m), Pow2(s), Pow2(m));
    ModOfMod(x, m, m);
  }

  lemma {:induction false} NarrowAShr(n: nat, m: nat, x: nat, s: nat)
    requires 1 <= m <= n && FitsSigned(m, Signed(n, x))
    ensures ((Signed(n, x) / Pow2(s)) % Pow2(n)) % Pow2(m) == (Signed(m, x % Pow2(m)) / Pow2(s)) % Pow2(m)
  {
    SignedResidue(n, x, m);
    SignedOfResidue(m, Signed(n, x));
    ModOfMod(Signed(n, x) / Pow2(s), n, m);
  }

  /** Every operation commutes with cutting down to m bits, under its side conditions. */
  lemma {:induction false} NarrowRaw(op: BinOp, n: nat, m: nat, x: nat, y: nat)
    requires 1 <= m <= n
    requires LeftFits(op, n, m, Int(x)) && RightFits(op, m, Int(y))
    requires IsDivision(op) ==> y != 0
    ensures IsDivision(op) ==> y % Pow2(m) != 0
    ensures IsShift(op) ==> y % Pow2(m) == y
    ensures Raw(op, n, x, y) % Pow2(m) == Raw(op, m, x % Pow2(m), y % Pow2(m))
  {
    if IsShift(op) { ShiftAmountFits(y, m); }
    match op
    case Add => NarrowSum(n, m, x, y);
    case Sub => NarrowSum(n, m, x, y);
    case Mul => NarrowProduct(n, m, x, y);
    case And => BitwiseMod(LAnd, x, y, m);
    case Or => BitwiseMod(LOr, x, y, m);
    case Xor => BitwiseMod(LXor, x, y, m);
    case Shl => NarrowShl(n, m, x, y);
    case AShr => NarrowAShr(n, m, x, y);
    case LShr =>
      SmallMod(x, m);
      SmallMod(Quotient(x, Pow2(y)), m);
    case UDiv =>
      SmallMod(x, m);
      SmallMod(y, m);
      SmallMod(Quotient(x, y), m);
    case URem =>
      SmallMod(x, m);
      SmallMod(y, m);
      SmallMod(x % y, m);
  }

  /** Exactness survives: the bits shifted out, or the remainder, are the same ones. */
  lemma {:induction false} NarrowExact(op: BinOp, f: Flags, n: nat, m: nat, x: nat, y: nat)
    requires 1 <= m <= n
    requires LeftFits(op, n, m, Int(x)) && RightFits(op, m, Int(y))
    requires IsDivision(op) ==> y != 0 && y % Pow2(m) != 0
    requires !Violates(op, f, n, x, y)
    ensures !Violates(op, Flags(false, false, f.exact), m, x % Pow2(m), y % Pow2(m))
  {
    if IsShift(op) {
      ShiftAmountFits(y, m);
      ModOfMod(x, m, y);
    } else if op.UDiv? {
      SmallMod(x, m);
      SmallMod(y, m);
    }
  }

  lemma NarrowBin(op: BinOp, f: Flags, n: nat, m: nat, x: Val, y: Val, x': Val, y': Val)
    requires 1 <= m <= n
    requires LeftFits(op, n, m, x) && RightFits(op, m, y)
    requires Reduces(m, x, x') && Reduces(m, y, y')
    ensures Reduces(m, EvalBin(op, f, n, x, y), EvalBin(op, Flags(false, false, f.exact), m, x', y'))
    ensures Reduces(m, EvalBin(op, f, n, x, y), EvalBin(op, NO_FLAGS, m, x', y'))
  {
    var o := EvalBin(op, f, n, x, y);
    if o.UB? {
    } else if y.Poison? {
    } else if x.Poison? {
      if IsDivision(op) { SmallMod(y.n, m); }
    } else if o.Poison? {
      NarrowRaw(op, n, m, x.n, y.n);
    } else {
      NarrowRaw(op, n, m, x.n, y.n);
      NarrowExact(op, f, n, m, x.n, y.n);
    }
  }

  /** A cast leaf may be rebuilt from its source straight to width m. */
  function RecastOp(op: CastOp, from: nat, m: nat): CastOp {
    if from > m then Trunc else if op.SExt? then SExt else ZExt
  }

  lemma NarrowCast(op: CastOp, from: nat, n: nat, m: nat, x: Val, x': Val)
    requires 1 <= from && 1 <= m <= n && InRange(x, from)
    requires if op.Trunc? then from > n else from < n
    requires Refines(x, x')
    ensures from == m ==> Reduces(m, EvalCast(op, from, n, x), x')
    ensures from != m ==> Reduces(m, EvalCast(op, from, n, x), EvalCast(RecastOp(op, from, m), from, m, x'))
  {
    if x.Int? {
      match op
      case Trunc => ModOfMod(x.n, n, m);
      case ZExt => if from <= m { Pow2Monotone(from, m); SmallMod(x.n, m); }
      case SExt =>
        ModOfMod(Signed(from, x.n), n, m);
        if from >= m { SignedResidue(from, x.n, m); }
        if from == m { SmallMod(x.n, m); }
    }
  }

  lemma NarrowSelect(m: nat, c: Val, x: Val, y: Val, c': Val, x': Val, y': Val)
    requires Refines(c, c') && Reduces(m, x, x') && Reduces(m, y, y')
    ensures Reduces(m, EvalSelect(c, x, y), EvalSelect(c', x', y'))
  {
  }

  /** The final trunc: from the narrow width m to the k bits the original trunc kept. */
  lemma NarrowRoot(n: nat, m: nat, k: nat, x: Val, x': Val)
    requires 1 <= k <= m < n
    requires Reduces(m, x, x')
    ensures Refines(EvalCast(Trunc, n, k, x), EvalCast(Trunc, m, k, x'))
    ensures m == k ==> Refines(EvalCast(Trunc, n, k, x), x')
  {
    if x.Int? { ModOfMod(x.n, m, k); }
  }
}
