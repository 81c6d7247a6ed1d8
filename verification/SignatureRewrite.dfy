/** Programs with some arguments and results dropped: what they look like, that they stay
    well-formed, that dropping in steps is dropping at once, and that nothing live is lost. */
module SignatureRewrite {
  import opened Calls
  import opened Keep

  /** Which parameters and which components of the result a function keeps. */
  datatype Plan = Plan(args: seq<bool>, rets: seq<bool>)

  type Plans = seq<Plan>

  ghost predicate Fits(p: Program, plans: Plans) {
    |plans| == |p| && forall f | 0 <= f < |p| :: |plans[f].args| == p[f].nparams && |plans[f].rets| == p[f].nrets
  }

  predicate KeepsAll(plan: Plan) { All(plan.args) && All(plan.rets) }

  // ----- the rewritten program -----

  function MapOperand(plans: Plans, h: FnId, ctx: seq<Binder>, o: Operand): Operand
    requires h < |plans|
  {
    match o
    case Param(i) =>
      var j := NewIndex(plans[h].args, i);
      if j < 0 then Undef else Param(j)
    case Loc(k, r) =>
      if k < |ctx| && ctx[k].CallB? && ctx[k].f < |plans| then
        var j := NewIndex(plans[ctx[k].f].rets, r);
        if j < 0 then Undef else Loc(k, j)
      else o
    case _ => o
  }

  function MapOperands(plans: Plans, h: FnId, ctx: seq<Binder>, ops: seq<Operand>): (r: seq<Operand>)
    requires h < |plans|
    ensures |r| == |ops|
  {
    seq(|ops|, i requires 0 <= i < |ops| => MapOperand(plans, h, ctx, ops[i]))
  }

  /** The components of a whole result. */
  function Components(k: nat, n: nat): (r: seq<Operand>)
    ensures |r| == n
  {
    seq(n, r requires 0 <= r => Loc(k, r))
  }

  function MapOutput(plans: Plans, h: FnId, ctx: seq<Binder>, v: Aggregate): Aggregate
    requires h < |plans|
    requires v.Whole? ==> v.k < |ctx| && ctx[v.k].CallB? && ctx[v.k].f < |plans|
  {
    match v
    case Parts(ops) => Parts(MapOperands(plans, h, ctx, ops))
    case Whole(k) =>
      var rets := plans[ctx[k].f].rets;
      if All(rets) then v else Parts(MapOperands(plans, h, ctx, Components(k, |rets|)))
  }

  function MapReturned(plans: Plans, h: FnId, ctx: seq<Binder>, v: Aggregate): Aggregate
    requires h < |plans|
    requires v.Parts? ==> |v.ops| == |plans[h].rets|
    requires v.Whole? ==>
             v.k < |ctx| && ctx[v.k].CallB? && ctx[v.k].f < |plans|
             && |plans[ctx[v.k].f].rets| == |plans[h].rets|
  {
    match v
    case Parts(ops) => Parts(Filter(MapOperands(plans, h, ctx, ops), plans[h].rets))
    case Whole(k) =>
      if All(plans[ctx[k].f].rets) && All(plans[h].rets) then v
      else Parts(Filter(MapOperands(plans, h, ctx, Components(k, |plans[h].rets|)), plans[h].rets))
  }

  function MapBody(p: Program, plans: Plans, h: FnId, ctx: seq<Binder>, b: Body): Body
    requires h < |p| && Fits(p, plans) && BodyOk(p, h, ctx, b)
    decreases b
  {
    match b
    case Op(code, args, rest) => Op(code, MapOperands(plans, h, ctx, args), MapBody(p, plans, h, ctx + [OpB], rest))
    case Call(g, args, rest) =>
      Call(g, KeepFirst(MapOperands(plans, h, ctx, args), plans[g].args), MapBody(p, plans, h, ctx + [CallB(g)], rest))
    case Output(v, rest) => Output(MapOutput(plans, h, ctx, v), MapBody(p, plans, h, ctx, rest))
    case If(c, thn, els) => If(MapOperand(plans, h, ctx, c), MapBody(p, plans, h, ctx, thn),
                               MapBody(p, plans, h, ctx, els))
    case Return(v) => Return(MapReturned(plans, h, ctx, v))
  }

  function MapFn(p: Program, plans: Plans, h: FnId): Fn
    requires h < |p| && Fits(p, plans) && ProgramOk(p)
  {
    Fn(Count(plans[h].args), Count(plans[h].rets), MapBody(p, plans, h, [], p[h].body), p[h].pinned, p[h].fixedArgs,
       set i | i in p[h].returned && NewIndex(plans[h].args, i) >= 0 :: NewIndex(plans[h].args, i) as nat)
  }

  function MapProgram(p: Program, plans: Plans): (r: Program)
    requires Fits(p, plans) && ProgramOk(p)
    ensures |r| == |p|
  {
    seq(|p|, h requires 0 <= h < |p| => MapFn(p, plans, h))
  }

  // ----- the rewritten program is well-formed -----

  ghost predicate SameShape(p: Program, plans: Plans, q: Program)
    requires Fits(p, plans)
  {
    |q| == |p|
    && forall f | 0 <= f < |p| ::
         q[f].nparams == Count(plans[f].args) && q[f].nrets == Count(plans[f].rets) && q[f].fixedArgs == p[f].fixedArgs
  }

  lemma {:induction false} NewIndexInRange(keep: seq<bool>, i: nat)
    requires i < |keep| && keep[i]
    ensures 0 <= NewIndex(keep, i) < Count(keep)
  {
    FilterAt(keep, keep, i);
  }

  lemma {:induction false} MappedOperandOk(p: Program, plans: Plans, q: Program, h: FnId, ctx: seq<Binder>, o: Operand)
    requires Fits(p, plans) && SameShape(p, plans, q) && h < |p| && OperandOk(p, h, ctx, o)
    ensures OperandOk(q, h, ctx, MapOperand(plans, h, ctx, o))
  {
    match o
    case Param(i) =>
      if plans[h].args[i] {
        NewIndexInRange(plans[h].args, i);
      }
    case Loc(k, r) =>
      if ctx[k].CallB? && plans[ctx[k].f].rets[r] {
        NewIndexInRange(plans[ctx[k].f].rets, r);
      }
    case _ =>
  }

  lemma {:induction false} MappedOperandsOk(p: Program, plans: Plans, q: Program, h: FnId, ctx: seq<Binder>,
                                            ops: seq<Operand>)
    requires Fits(p, plans) && SameShape(p, plans, q) && h < |p| && OperandsOk(p, h, ctx, ops)
    ensures OperandsOk(q, h, ctx, MapOperands(plans, h, ctx, ops))
  {
    forall i | 0 <= i < |ops| ensures OperandOk(q, h, ctx, MapOperand(plans, h, ctx, ops[i])) {
      MappedOperandOk(p, plans, q, h, ctx, ops[i]);
    }
  }

  lemma {:induction false} FilteredOk(q: Program, h: FnId, ctx: seq<Binder>, ops: seq<Operand>, keep: seq<bool>)
    requires h < |q| && |keep| == |ops| && OperandsOk(q, h, ctx, ops)
    ensures OperandsOk(q, h, ctx, Filter(ops, keep))
    decreases |ops|
  {
    if ops != [] {
      FilteredOk(q, h, ctx, ops[..|ops| - 1], keep[..|ops| - 1]);
      assert OperandOk(q, h, ctx, ops[|ops| - 1]);
    }
  }

  lemma {:induction false} MappedBodyOk(p: Program, plans: Plans, q: Program, h: FnId, ctx: seq<Binder>, b: Body)
    requires Fits(p, plans) && SameShape(p, plans, q) && h < |p| && BodyOk(p, h, ctx, b)
    ensures BodyOk(q, h, ctx, MapBody(p, plans, h, ctx, b))
    decreases b
  {
    hide MapOperand, Filter, NewIndex, Count;
    match b
    case Op(_, args, rest) =>
      MappedOperandsOk(p, plans, q, h, ctx, args);
      MappedBodyOk(p, plans, q, h, ctx + [OpB], rest);
    case Call(g, args, rest) =>
      MappedOperandsOk(p, plans, q, h, ctx, args);
      var mapped := MapOperands(plans, h, ctx, args);
      FilteredOk(q, h, ctx, mapped[..p[g].nparams], plans[g].args);
      assert OperandsOk(q, h, ctx, KeepFirst(mapped, plans[g].args));
      MappedBodyOk(p, plans, q, h, ctx + [CallB(g)], rest);
    case Output(v, rest) =>
      MappedOperandsOk(p, plans, q, h, ctx, if v.Parts? then v.ops else Components(v.k, p[ctx[v.k].f].nrets));
      MappedBodyOk(p, plans, q, h, ctx, rest);
    case If(c, thn, els) =>
      MappedOperandOk(p, plans, q, h, ctx, c);
      MappedBodyOk(p, plans, q, h, ctx, thn);
      MappedBodyOk(p, plans, q, h, ctx, els);
    case Return(Parts(ops)) =>
      MappedOperandsOk(p, plans, q, h, ctx, ops);
      FilteredOk(q, h, ctx, MapOperands(plans, h, ctx, ops), plans[h].rets);
    case Return(Whole(k)) =>
      var g, ops := ctx[k].f, Components(k, p[h].nrets);
      MappedOperandsOk(p, plans, q, h, ctx, ops);
      FilteredOk(q, h, ctx, MapOperands(plans, h, ctx, ops), plans[h].rets);
      if All(plans[g].rets) && All(plans[h].rets) {
        CountAll(plans[g].rets);
        CountAll(plans[h].rets);
      }
  }

  /** Caller and callee stay aligned: the rewritten program is well-formed. */
  lemma {:induction false} MappedProgramOk(p: Program, plans: Plans)
    requires Fits(p, plans) && ProgramOk(p)
    ensures ProgramOk(MapProgram(p, plans))
  {
    var q := MapProgram(p, plans);
    forall h: FnId | h < |p|
      ensures BodyOk(q, h, [], q[h].body)
      ensures forall i | i in q[h].returned :: i < q[h].nparams
    {
      MappedBodyOk(p, plans, q, h, [], p[h].body);
      forall i | i in p[h].returned && NewIndex(plans[h].args, i) >= 0
        ensures NewIndex(plans[h].args, i) < q[h].nparams
      {
        NewIndexInRange(plans[h].args, i);
      }
    }
  }
}
