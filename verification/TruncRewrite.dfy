/** What reducing a dag does to the program, and why every remaining value is refined. */
module TruncRewrite {
  import opened Bits
  import opened Ir
  import opened Narrowing
  import opened TruncDag

  // ----- the value-tracking analyses, as oracles -----

  /** Upper bound of a value, and its number of equal leading bits, at a context instruction. */
  datatype Oracle = Oracle(
    knownMax: (Program, Id, Value) -> nat,
    signBits: (Program, Id, Value) -> nat)

  ghost predicate BoundOk(o: Oracle, p: Program, t: Id, val: Valuation, v: Value) {
    ValueOk(p, v) && OpVal(val, v).Int? ==>
      var n, w, s := OpVal(val, v).n, WidthOf(p, v), o.signBits(p, t, v);
      n <= o.knownMax(p, t, v) && 1 <= s <= w && 0 - Pow2(w - s) <= Signed(w, n) < Pow2(w - s)
  }

  ghost predicate Acyclic(p: Program) { exists rank :: Ranked(p, rank) }

  /** One run of a function: what its opaque instructions produce, and which places it reaches. A
      place is a stretch of code run as a whole, such as a block; `home` is the place of a name. */
  datatype World = World(env: Valuation, home: Id -> nat, reach: set<nat>) {
    predicate Executed(id: Id) { home(id) in reach }

    predicate Available(v: Value) { v.Ref? ==> Executed(v.id) }

    /** What is executed has its operands executed. */
    ghost predicate Dominated(p: Program) {
      forall id, o | id in p && Executed(id) && o in Operands(p[id]) :: Available(o)
    }

    ghost predicate Runs(p: Program, val: Valuation) {
      WellTyped(p) && Acyclic(p) && Model(p, env, val) && Dominated(p)
    }
  }

  /** The analyses are right about an instruction's operands in every run that executes it. */
  ghost predicate SoundAtUses(o: Oracle, w: World) {
    forall p: Program, t: Id, val: Valuation, I: Id, v: Value ::
      w.Runs(p, val) && I in p && w.Executed(I) && v in Operands(p[I]) ==> BoundOk(o, p, t, val, v)
  }

  /** The analyses are right in every run that reaches the instruction they were asked at. */
  ghost predicate SoundAtContext(o: Oracle, w: World) {
    forall p: Program, t: Id, val: Valuation, v: Value ::
      w.Runs(p, val) && t in p && w.Executed(t) && w.Available(v) ==> BoundOk(o, p, t, val, v)
  }

  // ----- the rewritten program -----

  predicate IsExt(ins: Instr) { ins.Cast? && !ins.cop.Trunc? }

  predicate AllConst(ins: Instr) {
    !ins.Opaque? && forall v | v in Operands(ins) :: v.Const?
  }

  /** The builder folds an operation on constants; folded undefined behaviour is poison. */
  function Fold(p: Program, ins: Instr): Value
    requires InstrOk(p, ins)
  {
    var plain := if ins.Bin? then ins.(flags := NO_FLAGS) else ins;
    var v := Step(p, plain, 0, map[], map[]);
    Const(ins.width, if v.UB? then Poison else v)
  }

  /** `v` is what asking the builder for `ins` returned. */
  ghost predicate Built(p: Program, v: Value, ins: Instr) {
    InstrOk(p, ins)
    && match v
       case Ref(k) => k in p && p[k] == ins && !AllConst(ins)
       case Const(_, _) => AllConst(ins) && v == Fold(p, ins)
  }

  function TruncVal(x: Val, m: nat): Val {
    if x.Int? then Int(x.n % Pow2(m)) else x
  }

  function ReducedOperand(nv: map<Id, Value>, v: Value, m: nat): Value {
    match v
    case Const(_, x) => Const(m, TruncVal(x, m))
    case Ref(id) => if id in nv then nv[id] else v
  }

  /** The instruction that replaces a dag node at width m. */
  function LoweredInstr(p: Program, nv: map<Id, Value>, m: nat, ins: Instr): Instr {
    match ins
    case Cast(op, src, _) => Cast(RecastOp(op, WidthOf(p, src), m), src, m)
    case Bin(op, f, a, b, _) => Bin(op, Flags(false, false, f.exact), ReducedOperand(nv, a, m),
                                    ReducedOperand(nv, b, m), m)
    case Select(c, a, b, _) => Select(c, ReducedOperand(nv, a, m), ReducedOperand(nv, b, m), m)
    case Opaque(_, _) => ins
  }

  ghost predicate Lowered(p0: Program, p: Program, nv: map<Id, Value>, m: nat, I: Id)
    requires I in p0
  {
    I in nv && Typed(p, nv[I], m)
    && if p0[I].Cast? && WidthOf(p0, p0[I].src) == m then nv[I] == p0[I].src
       else Built(p, nv[I], LoweredInstr(p0, nv, m, p0[I]))
  }

  function Replaced(v: Value, t: Id, res: Value): Value { if v == Ref(t) then res else v }

  function ReplacedIn(ins: Instr, t: Id, res: Value): Instr {
    match ins
    case Cast(op, src, w) => Cast(op, Replaced(src, t, res), w)
    case Bin(op, f, a, b, w) => Bin(op, f, Replaced(a, t, res), Replaced(b, t, res), w)
    case Select(c, a, b, w) => Select(Replaced(c, t, res), Replaced(a, t, res), Replaced(b, t, res), w)
    case Opaque(ops, w) => Opaque(seq(|ops|, i requires 0 <= i < |ops| => Replaced(ops[i], t, res)), w)
  }

  /** What the analyses must say of a node for it to be evaluated at width m. */
  predicate SideConditions(o: Oracle, p: Program, t: Id, I: Id, m: nat)
    requires I in p
  {
    p[I].Bin? ==>
      var op, a, b := p[I].bop, p[I].a, p[I].b;
      (IsShift(op) ==> o.knownMax(p, t, b) < m)
      && (op.LShr? ==> o.knownMax(p, t, a) < Pow2(m))
      && (op.AShr? ==> p[I].width - o.signBits(p, t, a) + 1 <= m)
      && (IsDivision(op) ==> o.knownMax(p, t, a) < Pow2(m) && o.knownMax(p, t, b) < Pow2(m))
  }

  /** `t` truncates the root of the dag `keys`, and m lies between its two widths. */
  ghost predicate Shape(p: Program, t: Id, keys: seq<Id>, m: nat) {
    t in p && p[t].Cast? && p[t].cop.Trunc? && IsDag(p, p[t].src, keys)
    && 1 <= p[t].width <= m < WidthOf(p, p[t].src)
  }

  /** The dag below trunc `t` may be evaluated at width m. */
  ghost predicate Reducible(o: Oracle, p: Program, t: Id, keys: seq<Id>, m: nat) {
    Shape(p, t, keys, m) && forall I | I in keys :: I in p && SideConditions(o, p, t, I, m)
  }

  /** p is p0 with the dag of t rebuilt at width m and t replaced by `res`. */
  ghost predicate Rewritten(p0: Program, p: Program, t: Id, keys: seq<Id>, nv: map<Id, Value>, res: Value, m: nat)
    requires t in p0 && p0[t].Cast?
  {
    t !in p
    && (forall id | id in p0 && id != t && id !in keys :: id in p)
    && (forall id | id in p0 && id in p :: p[id] == ReplacedIn(p0[id], t, res))
    && (forall I | I in keys :: I in p0 && Lowered(p0, p, nv, m, I))
    && Typed(p, res, p0[t].width)
    && var root := ReducedOperand(nv, p0[t].src, m);
       if m == p0[t].width then res == root else Built(p, res, Cast(Trunc, root, p0[t].width))
  }

  predicate IsSameWidthCast(p: Program, I: Id, m: nat) {
    I in p && p[I].Cast? && WidthOf(p, p[I].src) == m
  }

  /** What the builder returned for node I is new, and stands in I's place. */
  predicate Inserted(home: Id -> nat, p0: Program, nv: map<Id, Value>, m: nat, I: Id) {
    I in nv && (nv[I].Ref? && !IsSameWidthCast(p0, I, m) ==> nv[I].id !in p0 && home(nv[I].id) == home(I))
  }

  predicate Made(nv: map<Id, Value>, id: Id) { exists I :: I in nv && nv[I] == Ref(id) }

  /** Nothing is new but rebuilt nodes and `extra`. */
  ghost predicate OnlyMade(p0: Program, p: Program, nv: map<Id, Value>, extra: Value) {
    forall id | id in p && id !in p0 :: extra == Ref(id) || Made(nv, id)
  }

  /** What a reduction adds to the program, and where. */
  ghost predicate Added(home: Id -> nat, p0: Program, p: Program, t: Id, keys: seq<Id>, nv: map<Id, Value>,
                        res: Value, m: nat)
    requires t in p0
  {
    OnlyMade(p0, p, nv, res)
    && (forall I | I in nv :: I in keys && Inserted(home, p0, nv, m, I))
    && (m != p0[t].width && res.Ref? ==> res.id !in p0 && home(res.id) == home(t))
  }

  // ----- refinement -----

  lemma BoundsFit(o: Oracle, p: Program, t: Id, keys: seq<Id>, m: nat, val: Valuation, I: Id)
    requires WellTyped(p) && I in p && p[I].Bin? && SideConditions(o, p, t, I, m) && m >= 1
    requires BoundOk(o, p, t, val, p[I].a) && BoundOk(o, p, t, val, p[I].b)
    ensures LeftFits(p[I].bop, p[I].width, m, OpVal(val, p[I].a))
    ensures RightFits(p[I].bop, m, OpVal(val, p[I].b))
  {
    assert InstrOk(p, p[I]);
    var a := p[I].a;
    if p[I].bop.AShr? && OpVal(val, a).Int? {
      Pow2Monotone(p[I].width - o.signBits(p, t, a), m - 1);
    }
  }

  /** What a built operation yields: folded, it loses its flags and does not trap. */
  function BuiltVal(folded: bool, op: BinOp, f: Flags, m: nat, x: Val, y: Val): Val
    requires m >= 1
  {
    if !folded then EvalBin(op, f, m, x, y)
    else
      var e := EvalBin(op, NO_FLAGS, m, x, y);
      if e.UB? then Poison else e
  }

  lemma BuiltBin(p: Program, env: Valuation, val: Valuation, v: Value, op: BinOp, f: Flags, a: Value, b: Value, m: nat)
    requires WellTyped(p) && Model(p, env, val) && Built(p, v, Bin(op, f, a, b, m))
    ensures OpVal(val, v) == BuiltVal(v.Const?, op, f, m, OpVal(val, a), OpVal(val, b))
  {
    var ins := Bin(op, f, a, b, m);
    if v.Const? { assert a in Operands(ins) && b in Operands(ins); }
  }

  lemma BuiltCast(p: Program, env: Valuation, val: Valuation, v: Value, op: CastOp, src: Value, m: nat)
    requires WellTyped(p) && Model(p, env, val) && Built(p, v, Cast(op, src, m))
    ensures OpVal(val, v) == EvalCast(op, WidthOf(p, src), m, OpVal(val, src))
  {
    if v.Const? { assert src in Operands(Cast(op, src, m)); }
  }

  lemma BuiltSelect(p: Program, env: Valuation, val: Valuation, v: Value, c: Value, a: Value, b: Value, m: nat)
    requires WellTyped(p) && Model(p, env, val) && Built(p, v, Select(c, a, b, m))
    ensures OpVal(val, v) == EvalSelect(OpVal(val, c), OpVal(val, a), OpVal(val, b))
  {
    var ins := Select(c, a, b, m);
    if v.Const? { assert c in Operands(ins) && a in Operands(ins) && b in Operands(ins); }
  }

  lemma ReducesThenRefines(m: nat, x: Val, y: Val, z: Val)
    requires Reduces(m, x, y) && Refines(y, z)
    ensures Reduces(m, x, z)
  {
  }

  /** What opaque instructions produce in the new program refines what they produced in the old one:
      fed refinements, a phi may yield an integer where it had yielded poison. */
  ghost predicate Improves(env0: Valuation, env: Valuation) {
    forall id :: Refines(OpVal(env0, Ref(id)), OpVal(env, Ref(id)))
  }

  lemma InputImproves(env0: Valuation, env: Valuation, id: Id, w: nat)
    requires Improves(env0, env)
    ensures Refines(Input(env0, id, w), Input(env, id, w))
  {
    assert Refines(OpVal(env0, Ref(id)), OpVal(env, Ref(id)));
  }

  /** A reduction together with executions of the program before and after it. */
  datatype Run = Run(
    o: Oracle, p0: Program, rank: map<Id, nat>, t: Id, keys: seq<Id>, m: nat,
    p: Program, nv: map<Id, Value>, res: Value,
    w: World, v0: Valuation, env: Valuation, v: Valuation)
  {
    ghost predicate Ok() {
      WellTyped(p0) && Ranked(p0, rank) && Model(p0, w.env, v0) && w.Dominated(p0)
      && Reducible(o, p0, t, keys, m)
      && WellTyped(p) && Model(p, env, v) && Improves(w.env, env)
      && Rewritten(p0, p, t, keys, nv, res, m)
      && (w.Executed(t) ==> Facts())
    }

    /** The analyses' answers about the dag hold for every node that is executed. */
    ghost predicate Facts() {
      forall I | I in keys && I in p0 && w.Executed(I) :: FactsFor(I)
    }

    ghost predicate FactsFor(I: Id)
      requires I in p0
    {
      forall o' | o' in Operands(p0[I]) :: BoundOk(o, p0, t, v0, o')
    }
  }

  /** A dag node has the dag's width; its cast source and its condition lie outside the dag. */
  lemma OutsideDag(x: Run, I: Id, o: Value)
    requires x.Ok() && I in x.keys && o.Ref?
    requires I in x.p0 && ((x.p0[I].Cast? && o == x.p0[I].src) || (x.p0[I].Select? && o == x.p0[I].cond))
    ensures o.id in x.p0 && o.id in x.p && o.id != x.t && x.rank[o.id] < x.rank[I]
  {
    hide Run.Facts, Model;
    assert InstrOk(x.p0, x.p0[I]) && InstrOk(x.p0, x.p0[x.t]);
    assert o in Operands(x.p0[I]);
    NodeRank(x, I);
    if o.id in x.keys {
      DagWidth(x.p0, x.p0[x.t].src, x.keys, o.id);
      DagWidth(x.p0, x.p0[x.t].src, x.keys, I);
      assert false;
    }
  }

  lemma {:induction false} PathRank(p: Program, rank: map<Id, nat>, path: seq<Id>, root: Id, id: Id)
    requires Ranked(p, rank) && root in p && PathTo(p, path, root, id)
    ensures id in rank && rank[id] <= rank[root]
    decreases |path|
  {
    if |path| > 1 {
      var prev := path[|path| - 2];
      assert Edge(p, path[|path| - 2], path[|path| - 1]);
      PathRank(p, rank, path[..|path| - 1], root, prev);
      assert Ref(id) in Operands(p[prev]);
    }
  }

  lemma NodeRank(x: Run, I: Id)
    requires WellTyped(x.p0) && Ranked(x.p0, x.rank) && Reducible(x.o, x.p0, x.t, x.keys, x.m) && I in x.keys
    ensures I in x.rank && I in x.p0 && x.rank[I] < x.rank[x.t]
  {
    var src := x.p0[x.t].src;
    assert InstrOk(x.p0, x.p0[x.t]);
    assert src in Operands(x.p0[x.t]);
    var path :| PathTo(x.p0, path, src.id, I);
    PathRank(x.p0, x.rank, path, src.id, I);
  }

  lemma FactsHere(x: Run, I: Id, v: Value)
    requires x.Facts() && I in x.keys && I in x.p0 && x.w.Executed(I) && v in Operands(x.p0[I])
    ensures BoundOk(x.o, x.p0, x.t, x.v0, v)
  {
    hide BoundOk;
    assert x.FactsFor(I);
  }

  lemma OperandExecuted(x: Run, I: Id, v: Value)
    requires x.Ok() && I in x.p0 && x.w.Executed(I) && v in Operands(x.p0[I])
    ensures x.w.Available(v)
  {
  }

  /** Every instruction that survives computes a refinement of what it computed before. */
  lemma {:induction false} SurvivorRefines(x: Run, id: Id)
    requires x.Ok() && id in x.p0 && id in x.p && id in x.rank && x.w.Executed(id)
    ensures id in x.v0 && id in x.v && Refines(x.v0[id], x.v[id])
    decreases x.rank[id], 1
  {
    hide Run.Ok, Run.Facts, Refines, Improves;
    SurvivorSteps(x, id);
    if !x.p0[id].Opaque? {
      forall o | o in Operands(x.p0[id])
        ensures WidthOf(x.p, Replaced(o, x.t, x.res)) == WidthOf(x.p0, o)
        ensures Refines(OpVal(x.v0, o), OpVal(x.v, Replaced(o, x.t, x.res)))
      {
        OperandRefines(x, id, o);
      }
    }
    StepMonotone(x, id);
  }

  lemma SurvivorSteps(x: Run, id: Id)
    requires x.Ok() && id in x.p0 && id in x.p
    ensures WellTyped(x.p0) && WellTyped(x.p) && Improves(x.w.env, x.env)
    ensures x.p[id] == ReplacedIn(x.p0[id], x.t, x.res)
    ensures id in x.v0 && x.v0[id] == Step(x.p0, x.p0[id], id, x.v0, x.w.env)
    ensures id in x.v && x.v[id] == Step(x.p, x.p[id], id, x.v, x.env)
  {
    hide Run.Facts, Reducible, Lowered, Built, Improves, Step, InstrOk;
  }

  lemma StepMonotone(x: Run, id: Id)
    requires WellTyped(x.p0) && WellTyped(x.p) && id in x.p0 && id in x.p && x.p[id] == ReplacedIn(x.p0[id], x.t, x.res)
    requires Improves(x.w.env, x.env)
    requires forall o | o in Operands(x.p0[id]) ::
               WidthOf(x.p, Replaced(o, x.t, x.res)) == WidthOf(x.p0, o)
               && Refines(OpVal(x.v0, o), OpVal(x.v, Replaced(o, x.t, x.res)))
    ensures Refines(Step(x.p0, x.p0[id], id, x.v0, x.w.env), Step(x.p, x.p[id], id, x.v, x.env))
  {
    hide Replaced, OpVal, EvalBin, EvalCast, EvalSelect, WellTyped, InstrOk, WidthOf, Refines;
    TypedAt(x.p0, id);
    TypedAt(x.p, id);
    var ops := Operands(x.p0[id]);
    match x.p0[id]
    case Cast(op, src, w) =>
      assert src in ops;
      SourceWidth(x.p0, x.p0[id]);
      EvalCastMonotone(op, WidthOf(x.p0, src), w, OpVal(x.v0, src), OpVal(x.v, Replaced(src, x.t, x.res)));
    case Bin(op, f, a, b, w) =>
      assert a in ops && b in ops;
      EvalBinMonotone(op, f, w, OpVal(x.v0, a), OpVal(x.v0, b),
        OpVal(x.v, Replaced(a, x.t, x.res)), OpVal(x.v, Replaced(b, x.t, x.res)));
    case Select(c, a, b, _) =>
      assert c in ops && a in ops && b in ops;
      EvalSelectMonotone(OpVal(x.v0, c), OpVal(x.v0, a), OpVal(x.v0, b),
        OpVal(x.v, Replaced(c, x.t, x.res)), OpVal(x.v, Replaced(a, x.t, x.res)), OpVal(x.v, Replaced(b, x.t, x.res)));
    case Opaque(_, w) => InputImproves(x.w.env, x.env, id, w);
  }

  lemma {:induction false} OperandRefines(x: Run, id: Id, o: Value)
    requires x.Ok() && id in x.p0 && id in x.p && id in x.rank && x.w.Executed(id) && o in Operands(x.p0[id])
    ensures WidthOf(x.p, Replaced(o, x.t, x.res)) == WidthOf(x.p0, o)
    ensures Refines(OpVal(x.v0, o), OpVal(x.v, Replaced(o, x.t, x.res)))
    decreases x.rank[id], 0
  {
    hide Run.Facts, Reducible, Lowered, Built;
    OperandExecuted(x, id, o);
    if o == Ref(x.t) {
      RootRefines(x);
    } else if o.Ref? {
      OperandSurvives(x, id, o);
      SurvivorRefines(x, o.id);
    }
  }

  lemma OperandSurvives(x: Run, id: Id, o: Value)
    requires WellTyped(x.p0) && WellTyped(x.p) && id in x.p0 && id in x.p
    requires x.p[id] == ReplacedIn(x.p0[id], x.t, x.res)
    requires o in Operands(x.p0[id]) && o.Ref? && o.id != x.t
    ensures o.id in x.p && o.id in x.p0
  {
    assert InstrOk(x.p0, x.p0[id]) && InstrOk(x.p, x.p[id]);
    assert Replaced(o, x.t, x.res) == o;
    assert o in Operands(x.p[id]);
  }

  /** The value put in the trunc's place refines the trunc. */
  lemma {:induction false} RootRefines(x: Run)
    requires x.Ok() && x.w.Executed(x.t)
    ensures x.t in x.p0 && x.t in x.rank && Refines(x.v0[x.t], OpVal(x.v, x.res))
    decreases x.rank[x.t], 0
  {
    hide Run.Ok, Run.Facts, Built;
    RootFacts(x);
    var src, k := x.p0[x.t].src, x.p0[x.t].width;
    OperandExecuted(x, x.t, src);
    assert x.Facts() by { ExecutedFacts(x); }
    ReducedOperandReduces(x, src, x.t);
    var red := ReducedOperand(x.nv, src, x.m);
    NarrowRoot(WidthOf(x.p0, src), x.m, k, OpVal(x.v0, src), OpVal(x.v, red));
    if x.m != k {
      RebuiltCast(x, x.res, Trunc, red, k);
    }
  }

  lemma ExecutedFacts(x: Run)
    requires x.Ok() && x.w.Executed(x.t)
    ensures x.Facts()
  {
  }

  lemma RootFacts(x: Run)
    requires x.Ok()
    ensures x.t in x.p0 && x.t in x.rank && x.t in x.v0 && x.p0[x.t].Cast?
    ensures var src, k := x.p0[x.t].src, x.p0[x.t].width;
            var red := ReducedOperand(x.nv, src, x.m);
            ValueOk(x.p0, src) && 1 <= k <= x.m < WidthOf(x.p0, src)
            && (src.Ref? ==> src.id in x.keys && src.id in x.rank && x.rank[src.id] < x.rank[x.t])
            && WidthOf(x.p, red) == x.m
            && x.v0[x.t] == EvalCast(Trunc, WidthOf(x.p0, src), k, OpVal(x.v0, src))
            && if x.m == k then x.res == red else Built(x.p, x.res, Cast(Trunc, red, k))
  {
    hide Run.Facts, Built, Lowered;
    var src := x.p0[x.t].src;
    assert InstrOk(x.p0, x.p0[x.t]);
    assert src in Operands(x.p0[x.t]);
    if src.Ref? { RootInDag(x.p0, src, x.keys); }
    RootWidth(x, src);
  }

  lemma RebuiltCast(x: Run, v: Value, op: CastOp, src: Value, m: nat)
    requires x.Ok() && Built(x.p, v, Cast(op, src, m))
    ensures WidthOf(x.p, src) >= 1
    ensures OpVal(x.v, v) == EvalCast(op, WidthOf(x.p, src), m, OpVal(x.v, src))
  {
    hide Run.Facts, Rewritten, Reducible, Ranked;
    BuiltCast(x.p, x.env, x.v, v, op, src, m);
  }

  lemma RootWidth(x: Run, v: Value)
    requires x.Ok() && ValueOk(x.p0, v) && (v.Ref? ==> v.id in x.keys)
    ensures Typed(x.p, ReducedOperand(x.nv, v, x.m), x.m)
  {
    hide Run.Facts, Model, Built;
    if v.Ref? { assert Lowered(x.p0, x.p, x.nv, x.m, v.id); }
  }

  /** A reduced operand carries the low m bits of the original. */
  lemma {:induction false} ReducedOperandReduces(x: Run, v: Value, user: Id)
    requires x.Ok() && x.Facts() && ValueOk(x.p0, v) && x.w.Available(v) && user in x.rank
    requires v.Ref? ==> v.id in x.keys && v.id in x.rank && x.rank[v.id] < x.rank[user]
    ensures Reduces(x.m, OpVal(x.v0, v), OpVal(x.v, ReducedOperand(x.nv, v, x.m)))
    decreases x.rank[user], 0, 0
  {
    hide Run.Facts, Model, Reducible, Built;
    if v.Ref? {
      assert Lowered(x.p0, x.p, x.nv, x.m, v.id);
      NodeReduces(x, v.id);
    }
  }

  /** Every rebuilt node carries the low m bits of the node it stands for. */
  lemma {:induction false} NodeReduces(x: Run, I: Id)
    requires x.Ok() && x.Facts() && I in x.keys && I in x.rank && x.w.Executed(I)
    ensures I in x.p0 && I in x.nv && I in x.v0 && Reduces(x.m, x.v0[I], OpVal(x.v, x.nv[I]))
    decreases x.rank[I], 1
  {
    hide Run.Facts, Built, Ranked;
    assert InstrOk(x.p0, x.p0[I]) && Lowered(x.p0, x.p, x.nv, x.m, I);
    NodeWidth(x, I);
    match x.p0[I]
    case Cast(_, _, _) => CastReduces(x, I);
    case Bin(_, _, _, _, _) => BinReduces(x, I);
    case Select(_, _, _, _) => SelectReduces(x, I);
    case Opaque(_, _) => assert false;
  }

  lemma NodeWidth(x: Run, I: Id)
    requires x.Ok() && I in x.keys
    ensures I in x.p0 && x.p0[I].width == WidthOf(x.p0, x.p0[x.t].src) && x.m < x.p0[I].width && x.m >= 1
  {
    hide Run.Facts, Model, Built, Lowered;
    assert InstrOk(x.p0, x.p0[x.t]);
    DagWidth(x.p0, x.p0[x.t].src, x.keys, I);
  }

  lemma CastFacts(x: Run, I: Id)
    requires x.Ok() && I in x.keys && I in x.p0 && x.p0[I].Cast?
    ensures var Cast(op, src, n) := x.p0[I];
            var from := WidthOf(x.p0, src);
            I in x.nv && I in x.v0 && ValueOk(x.p0, src) && 1 <= x.m <= n
            && (if op.Trunc? then from > n else from < n)
            && x.v0[I] == EvalCast(op, from, n, OpVal(x.v0, src))
            && (src.Const? ==> InRange(OpVal(x.v0, src), from))
            && if from == x.m then x.nv[I] == src else Built(x.p, x.nv[I], Cast(RecastOp(op, from, x.m), src, x.m))
  {
    hide Run.Facts, Built, Ranked, IsDag;
    assert InstrOk(x.p0, x.p0[I]) && Lowered(x.p0, x.p, x.nv, x.m, I);
    NodeWidth(x, I);
  }

  lemma SourceInRange(x: Run, id: Id)
    requires x.Ok() && id in x.p0 && id in x.p && id != x.t
    ensures id in x.v0 && id in x.v && InRange(x.v0[id], x.p0[id].width)
    ensures x.p[id].width == x.p0[id].width && id in x.rank
  {
    hide Run.Facts, Reducible, Lowered, Built;
    ModelInRange(x.p0, x.rank, x.w.env, x.v0, id);
    assert x.p[id] == ReplacedIn(x.p0[id], x.t, x.res);
  }

  lemma {:induction false} CastReduces(x: Run, I: Id)
    requires x.Ok() && x.Facts() && x.w.Executed(I) && I in x.keys && I in x.rank && I in x.p0 && x.p0[I].Cast?
    ensures I in x.nv && I in x.v0 && Reduces(x.m, x.v0[I], OpVal(x.v, x.nv[I]))
    decreases x.rank[I], 0
  {
    hide Run.Ok, Built;
    CastFacts(x, I);
    var Cast(op, src, n) := x.p0[I];
    var from := WidthOf(x.p0, src);
    if src.Ref? {
      OutsideDag(x, I, src);
      OperandExecuted(x, I, src);
      SourceInRange(x, src.id);
      SurvivorRefines(x, src.id);
    }
    NarrowCast(op, from, n, x.m, OpVal(x.v0, src), OpVal(x.v, src));
    if from != x.m {
      RebuiltCast(x, x.nv[I], RecastOp(op, from, x.m), src, x.m);
      assert WidthOf(x.p, src) == from;
      ReducesThenRefines(x.m, x.v0[I], EvalCast(RecastOp(op, from, x.m), from, x.m, OpVal(x.v, src)),
                         OpVal(x.v, x.nv[I]));
    }
  }

  lemma NodeOperand(x: Run, I: Id, v: Value)
    requires x.Ok() && I in x.keys && I in x.p0 && v in Relevant(x.p0[I])
    ensures ValueOk(x.p0, v) && I in x.rank && v in Operands(x.p0[I])
    ensures v.Ref? ==> v.id in x.keys && v.id in x.rank && x.rank[v.id] < x.rank[I]
  {
    hide Run.Facts, Model, Built, Lowered, Rewritten;
    assert InstrOk(x.p0, x.p0[I]);
    assert v in Operands(x.p0[I]);
    if v.Ref? {
      assert Edge(x.p0, I, v.id);
      DagClosedAt(x.p0, x.p0[x.t].src, x.keys, I);
    }
  }

  lemma BinFacts(x: Run, I: Id)
    requires x.Ok() && x.Facts() && x.w.Executed(I) && I in x.keys && I in x.p0 && x.p0[I].Bin?
    ensures var Bin(op, f, a, b, n) := x.p0[I];
            I in x.nv && I in x.v0 && 1 <= x.m <= n
            && x.v0[I] == EvalBin(op, f, n, OpVal(x.v0, a), OpVal(x.v0, b))
            && LeftFits(op, n, x.m, OpVal(x.v0, a)) && RightFits(op, x.m, OpVal(x.v0, b))
            && Built(x.p, x.nv[I], Bin(op, Flags(false, false, f.exact), ReducedOperand(x.nv, a, x.m),
                                       ReducedOperand(x.nv, b, x.m), x.m))
  {
    hide Run.Facts, Built, Ranked, IsDag, BoundOk;
    assert InstrOk(x.p0, x.p0[I]) && Lowered(x.p0, x.p, x.nv, x.m, I);
    NodeWidth(x, I);
    FactsHere(x, I, x.p0[I].a);
    FactsHere(x, I, x.p0[I].b);
    BoundsFit(x.o, x.p0, x.t, x.keys, x.m, x.v0, I);
  }

  lemma RebuiltBin(x: Run, v: Value, op: BinOp, f: Flags, a: Value, b: Value, m: nat)
    requires x.Ok() && m >= 1 && Built(x.p, v, Bin(op, f, a, b, m))
    ensures OpVal(x.v, v) == BuiltVal(v.Const?, op, f, m, OpVal(x.v, a), OpVal(x.v, b))
  {
    hide Run.Facts, Rewritten, Reducible, Ranked;
    BuiltBin(x.p, x.env, x.v, v, op, f, a, b, m);
  }

  lemma {:induction false} BinReduces(x: Run, I: Id)
    requires x.Ok() && x.Facts() && x.w.Executed(I) && I in x.keys && I in x.rank && I in x.p0 && x.p0[I].Bin?
    ensures I in x.nv && I in x.v0 && Reduces(x.m, x.v0[I], OpVal(x.v, x.nv[I]))
    decreases x.rank[I], 0, 2
  {
    hide Run.Ok, Built, LeftFits, RightFits;
    BinFacts(x, I);
    var Bin(op, f, a, b, n) := x.p0[I];
    BinOperandsReduce(x, I);
    var a', b' := ReducedOperand(x.nv, a, x.m), ReducedOperand(x.nv, b, x.m);
    NarrowBin(op, f, n, x.m, OpVal(x.v0, a), OpVal(x.v0, b), OpVal(x.v, a'), OpVal(x.v, b'));
    RebuiltBin(x, x.nv[I], op, Flags(false, false, f.exact), a', b', x.m);
  }

  lemma {:induction false} BinOperandsReduce(x: Run, I: Id)
    requires x.Ok() && x.Facts() && x.w.Executed(I) && I in x.keys && I in x.rank && I in x.p0 && !x.p0[I].Cast?
             && !x.p0[I].Opaque?
    ensures Reduces(x.m, OpVal(x.v0, x.p0[I].a), OpVal(x.v, ReducedOperand(x.nv, x.p0[I].a, x.m)))
    ensures Reduces(x.m, OpVal(x.v0, x.p0[I].b), OpVal(x.v, ReducedOperand(x.nv, x.p0[I].b, x.m)))
    decreases x.rank[I], 0, 1
  {
    hide Run.Facts, Model, Built, Lowered, Rewritten, Reducible;
    var a, b := x.p0[I].a, x.p0[I].b;
    NodeOperand(x, I, a);
    NodeOperand(x, I, b);
    OperandExecuted(x, I, a);
    OperandExecuted(x, I, b);
    ReducedOperandReduces(x, a, I);
    ReducedOperandReduces(x, b, I);
  }

  lemma SelectFacts(x: Run, I: Id)
    requires x.Ok() && I in x.keys && I in x.p0 && x.p0[I].Select?
    ensures var Select(c, a, b, n) := x.p0[I];
            I in x.nv && I in x.v0
            && x.v0[I] == EvalSelect(OpVal(x.v0, c), OpVal(x.v0, a), OpVal(x.v0, b))
            && Built(x.p, x.nv[I], Select(c, ReducedOperand(x.nv, a, x.m), ReducedOperand(x.nv, b, x.m), x.m))
  {
    hide Run.Facts, Built, Ranked, IsDag;
    assert InstrOk(x.p0, x.p0[I]) && Lowered(x.p0, x.p, x.nv, x.m, I);
  }

  lemma RebuiltSelect(x: Run, v: Value, c: Value, a: Value, b: Value, m: nat)
    requires x.Ok() && Built(x.p, v, Select(c, a, b, m))
    ensures OpVal(x.v, v) == EvalSelect(OpVal(x.v, c), OpVal(x.v, a), OpVal(x.v, b))
  {
    hide Run.Facts, Rewritten, Reducible, Ranked;
    BuiltSelect(x.p, x.env, x.v, v, c, a, b, m);
  }

  lemma {:induction false} SelectReduces(x: Run, I: Id)
    requires x.Ok() && x.Facts() && x.w.Executed(I) && I in x.keys && I in x.rank && I in x.p0 && x.p0[I].Select?
    ensures I in x.nv && I in x.v0 && Reduces(x.m, x.v0[I], OpVal(x.v, x.nv[I]))
    decreases x.rank[I], 0, 2
  {
    hide Run.Ok, Built;
    SelectFacts(x, I);
    var Select(c, a, b, n) := x.p0[I];
    if c.Ref? {
      OutsideDag(x, I, c);
      OperandExecuted(x, I, c);
      SourceInRange(x, c.id);
      SurvivorRefines(x, c.id);
    }
    BinOperandsReduce(x, I);
    var a', b' := ReducedOperand(x.nv, a, x.m), ReducedOperand(x.nv, b, x.m);
    NarrowSelect(x.m, OpVal(x.v0, c), OpVal(x.v0, a), OpVal(x.v0, b), OpVal(x.v, c), OpVal(x.v, a'), OpVal(x.v, b'));
    RebuiltSelect(x, x.nv[I], c, a', b', x.m);
    ReducesThenRefines(x.m, x.v0[I], EvalSelect(OpVal(x.v, c), OpVal(x.v, a'), OpVal(x.v, b')), OpVal(x.v, x.nv[I]));
  }

  // ----- where the new instructions stand -----

  lemma NodeAvailable(x: Run, I: Id)
    requires x.Ok() && Added(x.w.home, x.p0, x.p, x.t, x.keys, x.nv, x.res, x.m)
    requires I in x.keys && x.w.Executed(I)
    ensures I in x.nv && I in x.p0 && x.w.Available(x.nv[I])
  {
    hide Run.Facts, Model, Built, Reducible, OnlyMade;
    assert Lowered(x.p0, x.p, x.nv, x.m, I);
    if IsSameWidthCast(x.p0, I, x.m) {
      OperandExecuted(x, I, x.p0[I].src);
    } else {
      assert Inserted(x.w.home, x.p0, x.nv, x.m, I);
    }
  }

  lemma ReducedAvailable(x: Run, v: Value)
    requires x.Ok() && Added(x.w.home, x.p0, x.p, x.t, x.keys, x.nv, x.res, x.m)
    requires x.w.Available(v) && (v.Ref? ==> v.id in x.keys)
    ensures x.w.Available(ReducedOperand(x.nv, v, x.m))
  {
    hide Run.Ok, Added;
    if v.Ref? { NodeAvailable(x, v.id); }
  }

  lemma ResultAvailable(x: Run)
    requires x.Ok() && Added(x.w.home, x.p0, x.p, x.t, x.keys, x.nv, x.res, x.m) && x.w.Executed(x.t)
    ensures x.w.Available(x.res)
  {
    hide Run.Ok, Run.Facts, Built, OnlyMade, Inserted;
    RootFacts(x);
    if x.m == x.p0[x.t].width {
      OperandExecuted(x, x.t, x.p0[x.t].src);
      ReducedAvailable(x, x.p0[x.t].src);
    }
  }

  /** A new instruction that is executed has its operands executed. */
  lemma NewDominated(x: Run, id: Id, o: Value)
    requires x.Ok() && Added(x.w.home, x.p0, x.p, x.t, x.keys, x.nv, x.res, x.m)
    requires id in x.p && id !in x.p0 && x.w.Executed(id) && o in Operands(x.p[id])
    ensures x.w.Available(o)
  {
    hide Run.Ok, Run.Facts;
    NewInstr(x, id);
    if Made(x.nv, id) {
      var I :| I in x.nv && x.nv[I] == Ref(id);
      NewNode(x, I);
      var ins := x.p0[I];
      if ins.Cast? || (ins.Select? && o == ins.cond) {
        OperandExecuted(x, I, o);
      } else {
        forall v | v in Relevant(ins) ensures x.w.Available(ReducedOperand(x.nv, v, x.m)) {
          NodeOperand(x, I, v);
          OperandExecuted(x, I, v);
          ReducedAvailable(x, v);
        }
        LoweredOperands(x.p0, x.nv, x.m, ins, o);
      }
    } else {
      RootFacts(x);
      OperandExecuted(x, x.t, x.p0[x.t].src);
      ReducedAvailable(x, x.p0[x.t].src);
    }
  }

  lemma LoweredOperands(p: Program, nv: map<Id, Value>, m: nat, ins: Instr, o: Value)
    requires o in Operands(LoweredInstr(p, nv, m, ins)) && !ins.Cast? && !(ins.Select? && o == ins.cond)
    ensures exists v :: v in Relevant(ins) && o == ReducedOperand(nv, v, m)
  {
    match ins
    case Bin(_, _, a, b, _) => assert a in Relevant(ins) && b in Relevant(ins);
    case Select(_, a, b, _) => assert a in Relevant(ins) && b in Relevant(ins);
    case _ =>
  }

  /** Which instruction a new name stands for. */
  lemma NewInstr(x: Run, id: Id)
    requires x.Ok() && Added(x.w.home, x.p0, x.p, x.t, x.keys, x.nv, x.res, x.m)
    requires id in x.p && id !in x.p0
    ensures x.t in x.p0 && x.p0[x.t].Cast?
    ensures !Made(x.nv, id) ==> x.res == Ref(id) && x.m != x.p0[x.t].width && x.w.home(id) == x.w.home(x.t)
                                && x.p[id] == Cast(Trunc, ReducedOperand(x.nv, x.p0[x.t].src, x.m), x.p0[x.t].width)
  {
    hide Run.Facts, Model, Lowered, Inserted, WellTyped, Ranked, IsDag, SideConditions, BoundOk;
    RootFacts(x);
    var src := x.p0[x.t].src;
    assert src.Ref? ==> src.id in x.keys && Lowered(x.p0, x.p, x.nv, x.m, src.id) && src.id in x.nv;
  }

  lemma NewNode(x: Run, I: Id)
    requires x.Ok() && Added(x.w.home, x.p0, x.p, x.t, x.keys, x.nv, x.res, x.m)
    requires I in x.nv && x.nv[I].Ref? && x.nv[I].id !in x.p0 && x.nv[I].id in x.p
    ensures I in x.keys && I in x.p0 && x.w.home(x.nv[I].id) == x.w.home(I)
    ensures x.p[x.nv[I].id] == LoweredInstr(x.p0, x.nv, x.m, x.p0[I]) && !x.p0[I].Opaque?
  {
    hide Run.Facts, Model, Ranked, OnlyMade;
    assert I in x.keys && Inserted(x.w.home, x.p0, x.nv, x.m, I);
    assert Lowered(x.p0, x.p, x.nv, x.m, I);
    assert InstrOk(x.p0, x.p0[I]);
  }

  lemma OldStays(x: Run, id: Id)
    requires x.Ok() && id in x.p0
    ensures id in x.p ==> x.p[id] == ReplacedIn(x.p0[id], x.t, x.res)
    ensures x.p0[id].Opaque? ==> id in x.p
  {
    hide Run.Facts, Model, Lowered, Built, Ranked, BoundOk, SideConditions;
  }

  lemma OldDominated(x: Run, id: Id, o: Value)
    requires x.Ok() && Added(x.w.home, x.p0, x.p, x.t, x.keys, x.nv, x.res, x.m)
    requires id in x.p0 && id in x.p && x.w.Executed(id) && o in Operands(x.p[id])
    ensures x.w.Available(o)
  {
    hide Run.Ok, Run.Facts, Added;
    OldStays(x, id);
    var i :| 0 <= i < |Operands(x.p[id])| && Operands(x.p[id])[i] == o;
    var o0 := Operands(x.p0[id])[i];
    assert o0 in Operands(x.p0[id]) && o == Replaced(o0, x.t, x.res);
    OperandExecuted(x, id, o0);
    if o0 == Ref(x.t) { ResultAvailable(x); }
  }

  /** Dominance is kept. */
  lemma DominatedAfter(x: Run)
    requires x.Ok() && Added(x.w.home, x.p0, x.p, x.t, x.keys, x.nv, x.res, x.m)
    ensures x.w.Dominated(x.p)
  {
    hide Run.Ok, Run.Facts, Added;
    forall id, o | id in x.p && x.w.Executed(id) && o in Operands(x.p[id]) ensures x.w.Available(o) {
      if id in x.p0 { OldDominated(x, id, o); } else { NewDominated(x, id, o); }
    }
  }
}
