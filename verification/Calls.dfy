/** A first-order language of functions with several results, mutual recursion, branches and output:
    what dead argument elimination looks at, and what its programs mean. */
module Calls {

  type FnId = nat

  /** `Loc(k, r)` is component r of the k-th result bound so far. */
  datatype Operand = Lit(n: int) | Undef | Param(i: nat) | Loc(k: nat, r: nat)

  /** Several values together: built from parts, or a call's whole result as it is. */
  datatype Aggregate = Parts(ops: seq<Operand>) | Whole(k: nat)

  datatype Body =
    | Op(code: nat, args: seq<Operand>, rest: Body)
    | Call(f: FnId, args: seq<Operand>, rest: Body)
    | Output(v: Aggregate, rest: Body)
    | If(cond: Operand, thn: Body, els: Body)
    | Return(v: Aggregate)

  /** `pinned`: the signature must not change, because the function is visible outside, has its
      address taken, or is built in a way that fixes its frame. `fixedArgs`: variadic, or involved
      in musttail calls. `returned`: parameters marked as being the result. */
  datatype Fn = Fn(nparams: nat, nrets: nat, body: Body, pinned: bool, fixedArgs: bool, returned: set<nat>)

  type Program = seq<Fn>

  // ----- well-formedness -----

  /** What a local stands for: one computed value, or the results of a call. */
  datatype Binder = OpB | CallB(f: FnId)

  predicate OperandOk(p: Program, h: FnId, ctx: seq<Binder>, o: Operand)
    requires h < |p|
  {
    match o
    case Param(i) => i < p[h].nparams
    case Loc(k, r) => k < |ctx| && (match ctx[k] case OpB => r == 0 case CallB(g) => g < |p| && r < p[g].nrets)
    case _ => true
  }

  predicate OperandsOk(p: Program, h: FnId, ctx: seq<Binder>, ops: seq<Operand>)
    requires h < |p|
  {
    forall i | 0 <= i < |ops| :: OperandOk(p, h, ctx, ops[i])
  }

  predicate AggregateOk(p: Program, h: FnId, ctx: seq<Binder>, v: Aggregate)
    requires h < |p|
  {
    match v
    case Parts(ops) => OperandsOk(p, h, ctx, ops)
    case Whole(k) => k < |ctx| && ctx[k].CallB? && ctx[k].f < |p|
  }

  predicate BodyOk(p: Program, h: FnId, ctx: seq<Binder>, b: Body)
    requires h < |p|
    decreases b
  {
    match b
    case Op(_, args, rest) => OperandsOk(p, h, ctx, args) && BodyOk(p, h, ctx + [OpB], rest)
    case Call(g, args, rest) =>
      g < |p| && |args| >= p[g].nparams && (|args| > p[g].nparams ==> p[g].fixedArgs)
      && OperandsOk(p, h, ctx, args) && BodyOk(p, h, ctx + [CallB(g)], rest)
    case Output(v, rest) => AggregateOk(p, h, ctx, v) && BodyOk(p, h, ctx, rest)
    case If(c, thn, els) => OperandOk(p, h, ctx, c) && BodyOk(p, h, ctx, thn) && BodyOk(p, h, ctx, els)
    case Return(v) => AggregateOk(p, h, ctx, v) && p[h].nrets == if v.Parts? then |v.ops| else p[ctx[v.k].f].nrets
  }

  predicate ProgramOk(p: Program) {
    forall h | 0 <= h < |p| :: BodyOk(p, h, [], p[h].body) && forall i | i in p[h].returned :: i < p[h].nparams
  }

  // ----- meaning -----

  datatype Value = Int(n: int) | UndefValue

  datatype Outcome = OutOfFuel | Stuck | Done(rets: seq<Value>, out: seq<Value>)

  type Prims = (nat, seq<Value>) -> Value

  function At(vs: seq<Value>, i: nat): Value {
    if i < |vs| then vs[i] else UndefValue
  }

  function OpVal(o: Operand, params: seq<Value>, locs: seq<seq<Value>>): Value {
    match o
    case Lit(n) => Int(n)
    case Undef => UndefValue
    case Param(i) => At(params, i)
    case Loc(k, r) => if k < |locs| then At(locs[k], r) else UndefValue
  }

  function OpVals(ops: seq<Operand>, params: seq<Value>, locs: seq<seq<Value>>): (vs: seq<Value>)
    ensures |vs| == |ops|
  {
    seq(|ops|, i requires 0 <= i < |ops| => OpVal(ops[i], params, locs))
  }

  function AggregateVal(v: Aggregate, params: seq<Value>, locs: seq<seq<Value>>): seq<Value> {
    match v
    case Parts(ops) => OpVals(ops, params, locs)
    case Whole(k) => if k < |locs| then locs[k] else []
  }

  function AfterOutput(out: seq<Value>, r: Outcome): Outcome {
    if r.Done? then Done(r.rets, out + r.out) else r
  }

  /** Runs a body. Branching on an undefined value is an error; printing one is not. */
  function Eval(p: Program, prims: Prims, b: Body, params: seq<Value>, locs: seq<seq<Value>>, fuel: nat): Outcome
    decreases fuel, b
  {
    match b
    case Op(code, args, rest) =>
      Eval(p, prims, rest, params, locs + [[prims(code, OpVals(args, params, locs))]], fuel)
    case Call(g, args, rest) =>
      if g >= |p| then Stuck
      else if fuel == 0 then OutOfFuel
      else
        var r := Eval(p, prims, p[g].body, OpVals(args, params, locs), [], fuel - 1);
        if !r.Done? then r
        else AfterOutput(r.out, Eval(p, prims, rest, params, locs + [r.rets], fuel))
    case Output(v, rest) =>
      AfterOutput(AggregateVal(v, params, locs), Eval(p, prims, rest, params, locs, fuel))
    case If(c, thn, els) =>
      var v := OpVal(c, params, locs);
      if v.UndefValue? then Stuck
      else Eval(p, prims, if v.n != 0 then thn else els, params, locs, fuel)
    case Return(v) => Done(AggregateVal(v, params, locs), [])
  }

  function Run(p: Program, prims: Prims, h: FnId, args: seq<Value>, fuel: nat): Outcome
    requires h < |p|
  {
    Eval(p, prims, p[h].body, args, [], fuel)
  }
}
