/** A small SSA intermediate representation on fixed-width integers: syntax, typing, and the
    values an execution gives to its instructions. */
module Ir {
  import opened Bits

  type Id = nat

  /** The value of an SSA name. UB marks an execution that has already hit immediate undefined
      behaviour when the name is computed. */
  datatype Val = UB | Poison | Int(n: nat)

  datatype CastOp = Trunc | ZExt | SExt
  datatype BinOp = Add | Sub | Mul | And | Or | Xor | Shl | LShr | AShr | UDiv | URem
  datatype Flags = Flags(nuw: bool, nsw: bool, exact: bool)
  datatype Value = Const(width: nat, val: Val) | Ref(id: Id)

  /** `Opaque` stands for arguments and for every instruction the pass does not look into. */
  datatype Instr =
    | Cast(cop: CastOp, src: Value, width: nat)
    | Bin(bop: BinOp, flags: Flags, a: Value, b: Value, width: nat)
    | Select(cond: Value, a: Value, b: Value, width: nat)
    | Opaque(ops: seq<Value>, width: nat)

  type Program = map<Id, Instr>
  type Valuation = map<Id, Val>

  const NO_FLAGS := Flags(false, false, false)

  // ----- arithmetic -----

  predicate IsShift(op: BinOp) { op.Shl? || op.LShr? || op.AShr? }
  predicate IsDivision(op: BinOp) { op.UDiv? || op.URem? }

  function Raw(op: BinOp, w: nat, x: nat, y: nat): nat
    requires w >= 1
    requires IsDivision(op) ==> y != 0
  {
    match op
    case Add => (x + y) % Pow2(w)
    case Sub => (x - y) % Pow2(w)
    case Mul => (x * y) % Pow2(w)
    case And => Bitwise(LAnd, x, y)
    case Or => Bitwise(LOr, x, y)
    case Xor => Bitwise(LXor, x, y)
    case Shl => (x * Pow2(y)) % Pow2(w)
    case LShr => Quotient(x, Pow2(y))
    case AShr => (Signed(w, x) / Pow2(y)) % Pow2(w)
    case UDiv => Quotient(x, y)
    case URem => x % y
  }

  predicate FitsSigned(w: nat, s: int)
    requires w >= 1
  {
    0 - Pow2(w - 1) <= s < Pow2(w - 1)
  }

  /** Whether the poison-generating flags of an instruction are violated. */
  predicate Violates(op: BinOp, f: Flags, w: nat, x: nat, y: nat)
    requires w >= 1
    requires IsDivision(op) ==> y != 0
  {
    match op
    case Add => (f.nuw && x + y >= Pow2(w)) || (f.nsw && !FitsSigned(w, Signed(w, x) + Signed(w, y)))
    case Sub => (f.nuw && x < y) || (f.nsw && !FitsSigned(w, Signed(w, x) - Signed(w, y)))
    case Mul => (f.nuw && x * y >= Pow2(w)) || (f.nsw && !FitsSigned(w, Signed(w, x) * Signed(w, y)))
    case Shl => (f.nuw && x * Pow2(y) >= Pow2(w)) || (f.nsw && !FitsSigned(w, Signed(w, x) * Pow2(y)))
    case LShr => f.exact && x % Pow2(y) != 0
    case AShr => f.exact && x % Pow2(y) != 0
    case UDiv => f.exact && x % y != 0
    case _ => false
  }

  /** Division traps on a zero or poison divisor; a shift by the width or more is poison. */
  function EvalBin(op: BinOp, f: Flags, w: nat, x: Val, y: Val): Val
    requires w >= 1
  {
    if x.UB? || y.UB? then UB
    else if IsDivision(op) && (y.Poison? || y.n == 0) then UB
    else if x.Poison? || y.Poison? then Poison
    else if IsShift(op) && y.n >= w then Poison
    else if Violates(op, f, w, x.n, y.n) then Poison
    else Int(Raw(op, w, x.n, y.n))
  }

  function EvalCast(op: CastOp, from: nat, to: nat, x: Val): Val
    requires from >= 1
  {
    match x
    case Int(n) =>
      (match op
       case Trunc => Int(n % Pow2(to))
       case ZExt => Int(n)
       case SExt => Int(Signed(from, n) % Pow2(to)))
    case _ => x
  }

  function EvalSelect(c: Val, x: Val, y: Val): Val {
    if c.UB? || x.UB? || y.UB? then UB
    else if c.Poison? then Poison
    else if c.n != 0 then x else y
  }

  // ----- typing -----

  predicate InRange(v: Val, w: nat) { v.Int? ==> v.n < Pow2(w) }

  function WidthOf(p: Program, v: Value): nat {
    match v
    case Const(w, _) => w
    case Ref(id) => if id in p then p[id].width else 0
  }

  predicate ValueOk(p: Program, v: Value) {
    match v
    case Const(w, x) => w >= 1 && !x.UB? && InRange(x, w)
    case Ref(id) => id in p && p[id].width >= 1
  }

  predicate Typed(p: Program, v: Value, w: nat) {
    ValueOk(p, v) && WidthOf(p, v) == w
  }

  predicate InstrOk(p: Program, ins: Instr) {
    ins.width >= 1 &&
    match ins
    case Cast(op, src, w) => ValueOk(p, src) && (if op.Trunc? then WidthOf(p, src) > w else WidthOf(p, src) < w)
    case Bin(_, _, a, b, w) => Typed(p, a, w) && Typed(p, b, w)
    case Select(c, a, b, w) => Typed(p, c, 1) && Typed(p, a, w) && Typed(p, b, w)
    case Opaque(ops, _) => forall o | o in ops :: ValueOk(p, o)
  }

  /** Operands whose value the instruction is computed from. An opaque instruction's value is an
      input, so its operands (a phi's, say) may come later in the program. */
  function Operands(ins: Instr): seq<Value> {
    match ins
    case Cast(_, src, _) => [src]
    case Bin(_, _, a, b, _) => [a, b]
    case Select(c, a, b, _) => [c, a, b]
    case Opaque(_, _) => []
  }

  function AllOperands(ins: Instr): seq<Value> {
    if ins.Opaque? then ins.ops else Operands(ins)
  }

  predicate Uses(ins: Instr, id: Id) { Ref(id) in AllOperands(ins) }

  ghost predicate WellTyped(p: Program) {
    forall id | id in p :: InstrOk(p, p[id])
  }

  lemma TypedAt(p: Program, id: Id)
    requires WellTyped(p) && id in p
    ensures InstrOk(p, p[id])
  {
  }

  /** Definitions come before their uses: the order that dominance gives. */
  ghost predicate Ranked(p: Program, rank: map<Id, nat>) {
    forall id | id in p :: id in rank &&
      forall o | o in Operands(p[id]) :: o.Ref? ==> o.id in rank && rank[o.id] < rank[id]
  }

  // ----- meaning -----

  function OpVal(val: Valuation, v: Value): Val {
    match v
    case Const(_, x) => x
    case Ref(id) => if id in val then val[id] else Poison
  }

  /** The value an opaque instruction takes, clipped to its width. */
  function Input(env: Valuation, id: Id, w: nat): Val {
    if id !in env then Poison
    else if env[id].Int? then Int(env[id].n % Pow2(w))
    else env[id]
  }

  function Step(p: Program, ins: Instr, id: Id, val: Valuation, env: Valuation): Val
    requires InstrOk(p, ins)
  {
    match ins
    case Cast(op, src, w) => EvalCast(op, WidthOf(p, src), w, OpVal(val, src))
    case Bin(op, f, a, b, w) => EvalBin(op, f, w, OpVal(val, a), OpVal(val, b))
    case Select(c, a, b, _) => EvalSelect(OpVal(val, c), OpVal(val, a), OpVal(val, b))
    case Opaque(_, w) => Input(env, id, w)
  }

  /** `val` solves the defining equation of every instruction, given the opaque values. */
  ghost predicate Model(p: Program, env: Valuation, val: Valuation)
    requires WellTyped(p)
  {
    forall id | id in p :: id in val && val[id] == Step(p, p[id], id, val, env)
  }

  // ----- refinement -----

  /** `r` may replace `o`: UB may become anything, poison anything but UB, an integer only itself. */
  predicate Refines(o: Val, r: Val) {
    match o
    case UB => true
    case Poison => !r.UB?
    case Int(_) => r == o
  }

  /** `r` stands for `o` cut down to its low m bits. */
  predicate Reduces(m: nat, o: Val, r: Val) {
    match o
    case UB => true
    case Poison => !r.UB?
    case Int(n) => r == Int(n % Pow2(m))
  }

  lemma EvalBinMonotone(op: BinOp, f: Flags, w: nat, x: Val, y: Val, x': Val, y': Val)
    requires w >= 1 && Refines(x, x') && Refines(y, y')
    ensures Refines(EvalBin(op, f, w, x, y), EvalBin(op, f, w, x', y'))
  {
  }

  lemma EvalCastMonotone(op: CastOp, from: nat, to: nat, x: Val, x': Val)
    requires from >= 1 && Refines(x, x')
    ensures Refines(EvalCast(op, from, to, x), EvalCast(op, from, to, x'))
  {
  }

  lemma EvalSelectMonotone(c: Val, x: Val, y: Val, c': Val, x': Val, y': Val)
    requires Refines(c, c') && Refines(x, x') && Refines(y, y')
    ensures Refines(EvalSelect(c, x, y), EvalSelect(c', x', y'))
  {
  }

  lemma RefinesSelf()
    ensures forall v: Val :: Refines(v, v)
  {
  }

  lemma SourceWidth(p: Program, ins: Instr)
    requires InstrOk(p, ins) && ins.Cast?
    ensures WidthOf(p, ins.src) >= 1
  {
  }

  lemma {:induction false} RawInRange(op: BinOp, w: nat, x: nat, y: nat)
    requires w >= 1 && x < Pow2(w) && y < Pow2(w)
    requires IsDivision(op) ==> y != 0
    ensures Raw(op, w, x, y) < Pow2(w)
  {
    match op
    case And => BitwiseRange(LAnd, x, y, w);
    case Or => BitwiseRange(LOr, x, y, w);
    case Xor => BitwiseRange(LXor, x, y, w);
    case _ =>
  }

  lemma {:induction false} StepInRange(p: Program, ins: Instr, id: Id, val: Valuation, env: Valuation)
    requires InstrOk(p, ins)
    requires forall o | o in Operands(ins) :: InRange(OpVal(val, o), WidthOf(p, o))
    ensures InRange(Step(p, ins, id, val, env), ins.width)
  {
    hide Raw, Violates, OpVal;
    match ins
    case Cast(op, src, w) =>
      assert src in Operands(ins);
      if op.ZExt? { Pow2Monotone(WidthOf(p, src), w); }
    case Bin(op, f, a, b, w) =>
      assert a in Operands(ins) && b in Operands(ins);
      var x, y := OpVal(val, a), OpVal(val, b);
      if EvalBin(op, f, w, x, y).Int? { RawInRange(op, w, x.n, y.n); }
    case Select(c, a, b, w) =>
      assert a in Operands(ins) && b in Operands(ins);
    case Opaque(_, _) =>
  }

  /** In a model every name holds a value of its width. */
  lemma {:induction false} ModelInRange(p: Program, rank: map<Id, nat>, env: Valuation, val: Valuation, id: Id)
    requires WellTyped(p) && Ranked(p, rank) && Model(p, env, val) && id in p
    ensures InRange(val[id], p[id].width)
    decreases rank[id]
  {
    hide Step, InRange;
    TypedAt(p, id);
    forall o | o in Operands(p[id]) ensures InRange(OpVal(val, o), WidthOf(p, o)) {
      OperandOk(p, p[id], o);
      if o.Ref? {
        ModelInRange(p, rank, env, val, o.id);
      } else {
        ConstInRange(p, o, val);
      }
    }
    StepInRange(p, p[id], id, val, env);
  }

  lemma OperandOk(p: Program, ins: Instr, o: Value)
    requires InstrOk(p, ins) && o in Operands(ins)
    ensures ValueOk(p, o)
  {
  }

  lemma ConstInRange(p: Program, o: Value, val: Valuation)
    requires ValueOk(p, o) && o.Const?
    ensures InRange(OpVal(val, o), WidthOf(p, o))
  {
  }

  // ----- laws the operations have to satisfy -----

  /** Quotient and remainder make up the dividend. */
  lemma DivisionLaw(w: nat, x: nat, y: nat)
    requires w >= 1 && y != 0
    ensures Raw(UDiv, w, x, y) * y + Raw(URem, w, x, y) == x && Raw(URem, w, x, y) < y
  {
  }

  lemma {:induction false} SubUndoesAdd(w: nat, x: nat, y: nat)
    requires w >= 1 && x < Pow2(w) && y < Pow2(w)
    ensures Raw(Sub, w, Raw(Add, w, x, y), y) == x
  {
    ModSub(x + y, y, Pow2(w));
    ModSub((x + y) % Pow2(w), y, Pow2(w));
    QuotientIsUnique(0, Pow2(w), (x + y) % Pow2(w));
    ModOfItself(x + y, Pow2(w));
    QuotientIsUnique(0, Pow2(w), x);
  }

  lemma ModOfItself(x: nat, m: nat)
    requires m > 0
    ensures (x % m) % m == x % m
  {
    QuotientIsUnique(0, m, x % m);
  }

  lemma {:induction false} XorUndoesXor(w: nat, x: nat, y: nat)
    requires w >= 1
    ensures Raw(Xor, w, Raw(Xor, w, x, y), y) == x
    decreases x + y
  {
    BitwiseStep(LXor, x, y);
    BitwiseStep(LXor, Bitwise(LXor, x, y), y);
    if x + y > 0 { XorUndoesXor(w, x / 2, y / 2); }
  }

  /** Sign extension keeps the signed value. */
  lemma {:induction false} SExtKeepsSigned(from: nat, to: nat, n: nat)
    requires 1 <= from <= to && n < Pow2(from)
    ensures EvalCast(SExt, from, to, Int(n)).Int? && Signed(to, EvalCast(SExt, from, to, Int(n)).n) == Signed(from, n)
  {
    Pow2Monotone(from - 1, to - 1);
    QuotientIsUnique(0, Pow2(from), n);
    SignedOfResidue(to, Signed(from, n));
  }

  /** An arithmetic right shift halves the signed value, rounding down. */
  lemma {:induction false} AShrHalves(w: nat, x: nat, y: nat)
    requires w >= 1 && x < Pow2(w) && y < w
    ensures Signed(w, Raw(AShr, w, x, y)) == Signed(w, x) / Pow2(y)
  {
    QuotientIsUnique(0, Pow2(w), x);
    DivisionShrinks(Signed(w, x), Pow2(y), Pow2(w - 1));
    SignedOfResidue(w, Signed(w, x) / Pow2(y));
  }

  lemma DivisionShrinks(s: int, d: nat, b: nat)
    requires d > 0 && b > 0 && 0 - b <= s < b
    ensures 0 - b <= s / d < b
  {
    var q, r := s / d, s % d;
    assert s == q * d + r;
    MulMonotone(1, d, b);
    assert (0 - b - 1) * d == 0 - b * d - d && b * d == d * b;
    if q < 0 - b {
      MulMonotone(q, 0 - b - 1, d);
      assert false;
    }
    if q >= b {
      MulMonotone(b, q, d);
      assert false;
    }
  }

  // ----- every ranked program has a model -----

  function Solve(p: Program, rank: map<Id, nat>, env: Valuation, id: Id): Val
    requires WellTyped(p) && Ranked(p, rank) && id in p
    decreases rank[id], 1
  {
    Step(p, p[id], id, SolveOperands(p, rank, env, id), env)
  }

  function SolveOperands(p: Program, rank: map<Id, nat>, env: Valuation, id: Id): Valuation
    requires WellTyped(p) && Ranked(p, rank) && id in p
    decreases rank[id], 0
  {
    map o | o in Operands(p[id]) && o.Ref? :: o.id := Solve(p, rank, env, o.id)
  }

  lemma {:induction false} ModelExists(p: Program, rank: map<Id, nat>, env: Valuation) returns (val: Valuation)
    requires WellTyped(p) && Ranked(p, rank)
    ensures Model(p, env, val)
  {
    hide Step, InstrOk, Operands;
    val := map id | id in p :: Solve(p, rank, env, id);
    forall id | id in p
      ensures val[id] == Step(p, p[id], id, val, env)
    {
      TypedAt(p, id);
      var local := SolveOperands(p, rank, env, id);
      forall o | o in Operands(p[id])
        ensures OpVal(local, o) == OpVal(val, o)
      {
        OperandOk(p, p[id], o);
        if o.Ref? { assert o.id in local; }
      }
      StepDependsOnOperands(p, p[id], id, local, val, env);
    }
  }

  lemma StepDependsOnOperands(p: Program, ins: Instr, id: Id, v0: Valuation, v1: Valuation, env: Valuation)
    requires InstrOk(p, ins)
    requires forall o | o in Operands(ins) :: OpVal(v0, o) == OpVal(v1, o)
    ensures Step(p, ins, id, v0, env) == Step(p, ins, id, v1, env)
  {
    match ins
    case Cast(_, src, _) => assert src in Operands(ins);
    case Bin(_, _, a, b, _) => assert a in Operands(ins) && b in Operands(ins);
    case Select(c, a, b, _) => assert c in Operands(ins) && a in Operands(ins) && b in Operands(ins);
    case Opaque(_, _) =>
  }
}
