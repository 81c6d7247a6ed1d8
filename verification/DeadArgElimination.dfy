/** Dead argument elimination: the survey, then the removal of what is dead from one function after
    another, together with all its call sites. */
module DeadArgElimination {
  import opened Calls
  import opened Liveness
  import opened Keep
  import opened SignatureRewrite
  import opened RewriteSteps
  import opened DeadValues
  import opened DeadArgSurvey
  import opened LiveUses

  // ----- what is kept -----

  /** The live arguments, and the live components of the result; all components when there is
      nothing to drop or when a kept parameter is marked as being the result. */
  function PlanFor(fn: Fn, f: FnId, live: set<RetOrArg>): Plan {
    var args := seq(fn.nparams, i requires 0 <= i => Arg(f, i) in live);
    Plan(args, seq(fn.nrets, r requires 0 <= r => KeepsResult(fn, f, live) || Ret(f, r) in live))
  }

  /** A live parameter is marked as being the result. */
  predicate KeepsResult(fn: Fn, f: FnId, live: set<RetOrArg>) {
    exists i | i in fn.returned :: i < fn.nparams && Arg(f, i) in live
  }

  function PlansUpTo(p: Program, live: set<RetOrArg>, n: nat): (plans: Plans)
    ensures Fits(p, plans)
  {
    seq(|p|, f requires 0 <= f < |p| => if f < n then PlanFor(p[f], f, live) else Identity(p[f]))
  }

  function Only(p: Program, f: FnId, plan: Plan): (plans: Plans)
    requires f < |p|
    ensures |plans| == |p| && plans[f] == plan && forall g | 0 <= g < |p| && g != f :: KeepsAll(plans[g])
    ensures |plan.args| == p[f].nparams && |plan.rets| == p[f].nrets ==> Fits(p, plans)
  {
    Identities(p)[f := plan]
  }

  // ----- one function -----

  /** The tables that drive the rewriting of f and its call sites. `newRetIdxs` is consulted only
      when the result changes. */
  datatype Edit = Edit(f: FnId, argAlive: seq<bool>, newArgIdxs: seq<int>, newRetIdxs: seq<int>, retsChanged: bool)

  ghost predicate EditOk(p: Program, e: Edit, plans: Plans) {
    Fits(p, plans) && e.f < |p|
    && (forall g | 0 <= g < |p| && g != e.f :: KeepsAll(plans[g]))
    && e.argAlive == plans[e.f].args && |e.newArgIdxs| == p[e.f].nparams && |e.newRetIdxs| == p[e.f].nrets
    && (forall i: nat | i < |e.newArgIdxs| :: e.newArgIdxs[i] == NewIndex(e.argAlive, i))
    && (e.retsChanged <==> !All(plans[e.f].rets))
    && (e.retsChanged ==> forall r: nat | r < |e.newRetIdxs| :: e.newRetIdxs[r] == NewIndex(plans[e.f].rets, r))
  }

  /** A parameter of f, or a component of a result of f, gets its new number or becomes undefined. */
  method RewriteOperand(ghost p: Program, e: Edit, ghost plans: Plans, h: FnId, ctx: seq<Binder>, o: Operand)
    returns (r: Operand)
    requires EditOk(p, e, plans) && h < |p| && OperandOk(p, h, ctx, o)
    ensures r == MapOperand(plans, h, ctx, o)
  {
    if o.Param? && h == e.f {
      r := if e.newArgIdxs[o.i] < 0 then Undef else Param(e.newArgIdxs[o.i]);
    } else if o.Loc? && ctx[o.k] == CallB(e.f) && e.retsChanged {
      r := if e.newRetIdxs[o.r] < 0 then Undef else Loc(o.k, e.newRetIdxs[o.r]);
    } else {
      OthersKeep(p, e, plans, h, ctx, o);
      r := o;
    }
  }

  lemma {:induction false} OthersKeep(p: Program, e: Edit, plans: Plans, h: FnId, ctx: seq<Binder>, o: Operand)
    requires EditOk(p, e, plans) && h < |p| && OperandOk(p, h, ctx, o)
    requires o.Param? ==> h != e.f
    requires o.Loc? && ctx[o.k] == CallB(e.f) ==> !e.retsChanged
    ensures MapOperand(plans, h, ctx, o) == o
  {
    match o
    case Param(i) => CountAll(plans[h].args);
    case Loc(k, r) =>
      if ctx[k].CallB? {
        CountAll(plans[ctx[k].f].rets);
      }
    case _ =>
  }

  method RewriteOperands(ghost p: Program, e: Edit, ghost plans: Plans, h: FnId, ctx: seq<Binder>, ops: seq<Operand>)
    returns (r: seq<Operand>)
    requires EditOk(p, e, plans) && h < |p| && OperandsOk(p, h, ctx, ops)
    ensures r == MapOperands(plans, h, ctx, ops)
  {
    r := [];
    for i := 0 to |ops|
      invariant r == MapOperands(plans, h, ctx, ops)[..i]
    {
      assert OperandOk(p, h, ctx, ops[i]);
      var o := RewriteOperand(p, e, plans, h, ctx, ops[i]);
      r := r + [o];
    }
  }

  /** The operands of a call site that are still passed: the live ones, then the variadic ones. */
  method KeepLiveOperands(ops: seq<Operand>, alive: seq<bool>) returns (r: seq<Operand>)
    requires |alive| <= |ops|
    ensures r == KeepFirst(ops, alive)
    ensures |r| == Count(alive) + |ops| - |alive|
    ensures forall i: nat | i < |alive| && alive[i] ::
              0 <= NewIndex(alive, i) < Count(alive) && r[NewIndex(alive, i)] == ops[i]
    ensures forall v | |alive| <= v < |ops| :: r[Count(alive) + v - |alive|] == ops[v]
  {
    hide NewIndex, Count;
    r := [];
    for i := 0 to |alive|
      invariant r == Filter(ops[..i], alive[..i])
    {
      assert ops[..i + 1][..i] == ops[..i] && alive[..i + 1][..i] == alive[..i];
      if alive[i] {
        r := r + [ops[i]];
      }
    }
    assert alive[..|alive|] == alive;
    ghost var kept := r;
    for i := |alive| to |ops|
      invariant r == kept + ops[|alive|..i]
    {
      r := r + [ops[i]];
    }
    assert ops[|alive|..|ops|] == ops[|alive|..];
    KeepFirstAt(ops, alive);
  }

  /** The new result: the components with a new number, in their old order. */
  method KeepLiveResults(ops: seq<Operand>, newRetIdxs: seq<int>, ghost keep: seq<bool>) returns (r: seq<Operand>)
    requires |ops| == |newRetIdxs| == |keep| && forall i: nat | i < |keep| :: newRetIdxs[i] == NewIndex(keep, i)
    ensures r == Filter(ops, keep)
  {
    r := [];
    for i := 0 to |ops|
      invariant r == Filter(ops[..i], keep[..i])
    {
      assert ops[..i + 1][..i] == ops[..i] && keep[..i + 1][..i] == keep[..i];
      if newRetIdxs[i] != -1 {
        r := r + [ops[i]];
      }
    }
    assert ops[..|ops|] == ops && keep[..|ops|] == keep;
  }

  /** A whole result that changes is rebuilt from its live components and undefined values. */
  method RewriteOutput(ghost p: Program, e: Edit, ghost plans: Plans, h: FnId, ctx: seq<Binder>, v: Aggregate)
    returns (r: Aggregate)
    requires EditOk(p, e, plans) && h < |p| && AggregateOk(p, h, ctx, v)
    ensures r == MapOutput(plans, h, ctx, v)
  {
    var ops;
    match v {
      case Parts(parts) => ops := parts;
      case Whole(k) =>
        if !(e.retsChanged && ctx[k].f == e.f) {
          return v;
        }
        ops := Components(k, |e.newRetIdxs|);
    }
    var parts := RewriteOperands(p, e, plans, h, ctx, ops);
    return Parts(parts);
  }

  method RewriteReturned(ghost p: Program, e: Edit, ghost plans: Plans, h: FnId, ctx: seq<Binder>, nrets: nat,
                         v: Aggregate) returns (r: Aggregate)
    requires EditOk(p, e, plans) && h < |p| && AggregateOk(p, h, ctx, v)
    requires nrets == p[h].nrets == if v.Parts? then |v.ops| else p[ctx[v.k].f].nrets
    ensures r == MapReturned(plans, h, ctx, v)
  {
    var ops;
    match v {
      case Parts(parts) => ops := parts;
      case Whole(k) =>
        if !(e.retsChanged && (h == e.f || ctx[k].f == e.f)) {
          return v;
        }
        ops := Components(k, nrets);
    }
    var parts := RewriteOperands(p, e, plans, h, ctx, ops);
    if h == e.f && e.retsChanged {
      parts := KeepLiveResults(parts, e.newRetIdxs, plans[h].rets);
    } else {
      FilterAll(parts, plans[h].rets);
    }
    return Parts(parts);
  }

  method RewriteBody(ghost p: Program, e: Edit, ghost plans: Plans, h: FnId, ctx: seq<Binder>, nrets: nat, b: Body)
    returns (r: Body)
    requires EditOk(p, e, plans) && h < |p| && nrets == p[h].nrets && BodyOk(p, h, ctx, b)
    ensures r == MapBody(p, plans, h, ctx, b)
    decreases b
  {
    hide OperandOk, OperandsOk, AggregateOk, MapOperand, MapOperands, MapOutput, MapReturned, Filter, Count, NewIndex;
    match b
    case Op(code, args, rest) =>
      var ops := RewriteOperands(p, e, plans, h, ctx, args);
      var rest' := RewriteBody(p, e, plans, h, ctx + [OpB], nrets, rest);
      r := Op(code, ops, rest');
    case Call(g, args, rest) =>
      var ops := RewriteOperands(p, e, plans, h, ctx, args);
      if g == e.f {
        ops := KeepLiveOperands(ops, e.argAlive);
      } else {
        FilterAll(ops[..p[g].nparams], plans[g].args);
      }
      var rest' := RewriteBody(p, e, plans, h, ctx + [CallB(g)], nrets, rest);
      r := Call(g, ops, rest');
    case Output(v, rest) =>
      var v' := RewriteOutput(p, e, plans, h, ctx, v);
      var rest' := RewriteBody(p, e, plans, h, ctx, nrets, rest);
      r := Output(v', rest');
    case If(c, thn, els) =>
      var c' := RewriteOperand(p, e, plans, h, ctx, c);
      var thn' := RewriteBody(p, e, plans, h, ctx, nrets, thn);
      var els' := RewriteBody(p, e, plans, h, ctx, nrets, els);
      r := If(c', thn', els');
    case Return(v) =>
      var v' := RewriteReturned(p, e, plans, h, ctx, nrets, v);
      r := Return(v');
  }

  // ----- the pass's state -----

  class DeadArgEliminator {
    var prog: Program
    var liveValues: set<RetOrArg>
    var liveFunctions: set<FnId>

    constructor (prog: Program, liveValues: set<RetOrArg>, liveFunctions: set<FnId>)
      ensures this.prog == prog && this.liveValues == liveValues && this.liveFunctions == liveFunctions
    {
      this.prog, this.liveValues, this.liveFunctions := prog, liveValues, liveFunctions;
    }

    /** The plan for one function in the present state. */
    function Planned(f: FnId): (plan: Plan)
      requires f < |prog|
      reads this
      ensures |plan.args| == prog[f].nparams && |plan.rets| == prog[f].nrets
    {
      if f in liveFunctions then Identity(prog[f]) else PlanFor(prog[f], f, liveValues)
    }

    /** Which arguments of f are alive, and their places in the new parameter list. Their liveness is
        forgotten on the way. */
    method PlanArguments(f: FnId)
      returns (argAlive: seq<bool>, newArgIdxs: seq<int>, nparams: nat, hasLiveReturnedArg: bool)
      requires f < |prog| && ProgramOk(prog)
      modifies this`liveValues
      ensures argAlive == PlanFor(prog[f], f, old(liveValues)).args && nparams == Count(argAlive)
      ensures |newArgIdxs| == |argAlive| && forall i: nat | i < |argAlive| :: newArgIdxs[i] == NewIndex(argAlive, i)
      ensures hasLiveReturnedArg == KeepsResult(prog[f], f, old(liveValues))
      ensures forall ra :: ra in liveValues <==>
              ra in old(liveValues) && !(ra.Arg? && ra.f == f && ra.i < prog[f].nparams)
    {
      hide BodyOk, ProgramOk, Count, NewIndex;
      argAlive, newArgIdxs, nparams, hasLiveReturnedArg := [], [], 0, false;
      var n, returned := prog[f].nparams, prog[f].returned;
      ghost var all := seq(n, i requires 0 <= i => Arg(f, i) in old(liveValues));
      CountNothing(all);
      for i := 0 to n
        invariant argAlive == all[..i] && nparams == Count(all[..i]) && |newArgIdxs| == i
        invariant forall j: nat | j < i :: newArgIdxs[j] == NewIndex(all, j)
        invariant hasLiveReturnedArg <==> exists j | j in returned :: j < i && Arg(f, j) in old(liveValues)
        invariant forall ra :: ra in liveValues <==> ra in old(liveValues) && !(ra.Arg? && ra.f == f && ra.i < i)
      {
        CountNext(all, i);
        if Arg(f, i) in liveValues {
          liveValues := liveValues - {Arg(f, i)};
          newArgIdxs := newArgIdxs + [nparams];
          argAlive, nparams := argAlive + [true], nparams + 1;
          hasLiveReturnedArg := hasLiveReturnedArg || i in returned;
        } else {
          newArgIdxs := newArgIdxs + [-1];
          argAlive := argAlive + [false];
        }
      }
      assert all[..n] == all;
    }

    /** Which components of the result are alive, and their places in the new one. */
    method PlanResults(f: FnId) returns (newRetIdxs: seq<int>, nrets: nat, ghost keep: seq<bool>)
      requires f < |prog|
      modifies this`liveValues
      ensures |newRetIdxs| == |keep| == prog[f].nrets && nrets == Count(keep)
      ensures forall r: nat | r < prog[f].nrets ::
              (keep[r] <==> Ret(f, r) in old(liveValues)) && newRetIdxs[r] == NewIndex(keep, r)
      ensures forall ra :: ra in liveValues <==>
              ra in old(liveValues) && !(ra.Ret? && ra.f == f && ra.i < prog[f].nrets)
    {
      hide Count, NewIndex;
      newRetIdxs, nrets := [], 0;
      keep := seq(prog[f].nrets, r requires 0 <= r => Ret(f, r) in old(liveValues));
      CountNothing(keep);
      for r := 0 to prog[f].nrets
        invariant nrets == Count(keep[..r]) && |newRetIdxs| == r
        invariant forall j: nat | j < r :: newRetIdxs[j] == NewIndex(keep, j)
        invariant forall ra :: ra in liveValues <==> ra in old(liveValues) && !(ra.Ret? && ra.f == f && ra.i < r)
      {
        CountNext(keep, r);
        if Ret(f, r) in liveValues {
          liveValues := liveValues - {Ret(f, r)};
          newRetIdxs, nrets := newRetIdxs + [nrets], nrets + 1;
        } else {
          newRetIdxs := newRetIdxs + [-1];
        }
      }
      assert keep[..prog[f].nrets] == keep;
    }

    /** Drops what is dead from f's signature, from its body and from all its call sites. */
    method RemoveDeadStuffFromFunction(f: FnId) returns (changed: bool)
      requires f < |prog| && ProgramOk(prog)
      modifies this`prog, this`liveValues
      ensures prog == MapProgram(old(prog), Only(old(prog), f, old(Planned(f))))
      ensures changed <==> !KeepsAll(old(Planned(f)))
      ensures forall ra: RetOrArg | ra.f != f :: ra in liveValues <==> ra in old(liveValues)
    {
      ghost var plan := Planned(f);
      ghost var plans := Only(prog, f, plan);
      if f in liveFunctions {
        NothingToDo(prog, plans);
        return false;
      }
      var argAlive, newArgIdxs, nparams, hasLiveReturnedArg := PlanArguments(f);
      var nrets, newRetIdxs, retsChanged := prog[f].nrets, seq(prog[f].nrets, r => -1), false;
      if nrets != 0 && !hasLiveReturnedArg {
        ghost var keep;
        newRetIdxs, nrets, keep := PlanResults(f);
        assert keep == plan.rets;
        CountIsFullWhenAll(keep);
        retsChanged := nrets != prog[f].nrets;
      }
      CountIsFullWhenAll(plan.args);
      CountIsFullWhenAll(plan.rets);
      if nparams == prog[f].nparams && !retsChanged {
        NothingToDo(prog, plans);
        return false;
      }
      RewriteModule(Edit(f, argAlive, newArgIdxs, newRetIdxs, retsChanged), plans, nparams, nrets);
      changed := true;
    }

    /** Replaces f, and every call site of f. */
    method RewriteModule(e: Edit, ghost plans: Plans, nparams: nat, nrets: nat)
      requires ProgramOk(prog) && EditOk(prog, e, plans)
      requires nparams == Count(plans[e.f].args) && nrets == Count(plans[e.f].rets)
      modifies this`prog
      ensures prog == MapProgram(old(prog), plans)
    {
      hide BodyOk, MapBody, All, Count;
      ghost var p := prog;
      var result: Program := [];
      for h := 0 to |prog|
        invariant prog == p && result == MapProgram(p, plans)[..h]
      {
        var fn := prog[h];
        var body := RewriteBody(p, e, plans, h, [], fn.nrets, fn.body);
        if h == e.f {
          var returned := set i | i in fn.returned && e.newArgIdxs[i] >= 0 :: e.newArgIdxs[i] as nat;
          result := result + [Fn(nparams, nrets, body, fn.pinned, fn.fixedArgs, returned)];
        } else {
          CountAll(plans[h].args);
          CountAll(plans[h].rets);
          result := result + [fn.(body := body)];
        }
        assert result[h] == MapFn(p, plans, h);
      }
      prog := result;
    }
  }

  lemma {:induction false} CountIsFullWhenAll(keep: seq<bool>)
    ensures Count(keep) == |keep| <==> All(keep)
  {
    if All(keep) {
      CountAll(keep);
    }
  }

  // ----- the whole pass -----

  lemma {:induction false} PlansKeepLive(p: Program, live: set<RetOrArg>)
    requires ProgramOk(p) && Closed(p, live)
    ensures KeepsLive(p, live, PlansUpTo(p, live, |p|))
  {
    var plans := PlansUpTo(p, live, |p|);
    forall ra | IsValue(p, ra) && ra in live ensures Kept(plans, ra) {
      assert plans[ra.f] == PlanFor(p[ra.f], ra.f, live);
    }
  }

  lemma {:induction false} PinnedPlan(p: Program, live: set<RetOrArg>, f: FnId)
    requires Closed(p, live) && f < |p| && p[f].pinned
    ensures PlanFor(p[f], f, live) == Identity(p[f])
  {
    var plan := PlanFor(p[f], f, live);
    forall i: nat | i < p[f].nparams ensures plan.args[i] {
      assert IsValue(p, Arg(f, i)) && Intrinsic(p, Arg(f, i));
    }
    forall r: nat | r < p[f].nrets ensures plan.rets[r] {
      assert IsValue(p, Ret(f, r)) && Intrinsic(p, Ret(f, r));
    }
    assert plan.args == Identity(p[f]).args && plan.rets == Identity(p[f]).rets;
  }

  /** A function that has not been reached yet still has its signature. */
  lemma {:induction false} NotReached(p: Program, live: set<RetOrArg>, n: nat, f: FnId)
    requires ProgramOk(p) && n <= f < |p|
    ensures var q := MapProgram(p, PlansUpTo(p, live, n));
            q[f].nparams == p[f].nparams && q[f].nrets == p[f].nrets && q[f].returned == p[f].returned
  {
    var plan := Identity(p[f]);
    CountAll(plan.args);
    CountAll(plan.rets);
  }

  lemma {:induction false} PlanForSame(a: Fn, b: Fn, f: FnId, live: set<RetOrArg>, values: set<RetOrArg>)
    requires a.nparams == b.nparams && a.nrets == b.nrets && a.returned == b.returned
    requires forall i: nat | i < a.nparams :: Arg(f, i) in live <==> Arg(f, i) in values
    requires forall r: nat | r < a.nrets :: Ret(f, r) in live <==> Ret(f, r) in values
    ensures PlanFor(a, f, live) == PlanFor(b, f, values)
  {
    assert KeepsResult(a, f, live) <==> KeepsResult(b, f, values);
    assert PlanFor(a, f, live).args == PlanFor(b, f, values).args;
    assert PlanFor(a, f, live).rets == PlanFor(b, f, values).rets;
  }

  lemma {:induction false} OneMore(p: Program, live: set<RetOrArg>, f: FnId)
    requires ProgramOk(p) && f < |p|
    ensures var q := MapProgram(p, PlansUpTo(p, live, f));
            var plans := Only(q, f, PlanFor(p[f], f, live));
            Fits(q, plans) && ProgramOk(q) && MapProgram(q, plans) == MapProgram(p, PlansUpTo(p, live, f + 1))
    ensures ProgramOk(MapProgram(p, PlansUpTo(p, live, f + 1)))
  {
    var a, c := PlansUpTo(p, live, f), PlansUpTo(p, live, f + 1);
    var q := MapProgram(p, a);
    NotReached(p, live, f, f);
    MappedProgramOk(p, a);
    MappedProgramOk(p, c);
    var b := Only(q, f, PlanFor(p[f], f, live));
    ProgramComposes(p, a, b, c);
  }

  /** Surveys the module, then removes what is dead, function by function. The result drops exactly
      what the least live set leaves out; every function still computes its live results from its live
      arguments, and one with a fixed signature shows no difference at all. */
  method EliminateDeadArguments(p: Program) returns (q: Program, changed: bool, ghost live: set<RetOrArg>)
    requires ProgramOk(p)
    ensures IsLeastLive(p, live) && IsLeastUsed(p, live)
    ensures q == MapProgram(p, PlansUpTo(p, live, |p|)) && ProgramOk(q)
    ensures forall f: FnId, i: nat | f < |p| && i < p[f].nparams ::
              (PlansUpTo(p, live, |p|)[f].args[i] <==> Arg(f, i) in live)
    ensures forall f: FnId, r: nat | f < |p| && r < p[f].nrets ::
              (PlansUpTo(p, live, |p|)[f].rets[r] <==>
               Ret(f, r) in live || exists i :: i in p[f].returned && Arg(f, i) in live)
    ensures |q| == |p| && forall f: FnId | f < |p| ::
              q[f].nparams == Count(PlansUpTo(p, live, |p|)[f].args)
              && q[f].nrets == Count(PlansUpTo(p, live, |p|)[f].rets)
              && q[f].pinned == p[f].pinned && q[f].fixedArgs == p[f].fixedArgs
    ensures forall prims: Prims, h: FnId, args: seq<Value>, fuel: nat | h < |p| && |args| == p[h].nparams ::
              OutcomesAgree(p, live, PlansUpTo(p, live, |p|), h, Run(p, prims, h, args, fuel),
                            Run(q, prims, h, Filter(args, PlansUpTo(p, live, |p|)[h].args), fuel))
    ensures forall prims: Prims, h: FnId, args: seq<Value>, fuel: nat
              | h < |p| && |args| == p[h].nparams && p[h].pinned ::
              Run(q, prims, h, args, fuel) == Run(p, prims, h, args, fuel)
    ensures changed <==> exists f :: 0 <= f < |p| && !KeepsAll(PlansUpTo(p, live, |p|)[f])
    ensures !changed ==> q == p
  {
    hide MapProgram, PlansUpTo, PlanFor, ProgramOk, State, Only, Identity, KeepsAll, Closed, OutcomesAgree, Run,
         KeepsLive, Values, IsLeastUsed;
    var surveyor := new DeadArgSurveyor(p);
    var order := seq(|p|, f requires 0 <= f => f);
    forall f: FnId | f < |p| ensures f in order {
      assert order[f] == f;
    }
    surveyor.Survey(order);
    live := surveyor.LiveSet();
    var remover := new DeadArgEliminator(p, surveyor.liveValues, surveyor.liveFunctions);
    changed := false;
    NoPlans(p, live);
    for f := 0 to |p|
      invariant remover.prog == MapProgram(p, PlansUpTo(p, live, f)) && ProgramOk(remover.prog)
      invariant forall g: FnId :: g in remover.liveFunctions <==> g < |p| && p[g].pinned
      invariant forall ra | IsValue(p, ra) && ra.f >= f && !p[ra.f].pinned :: ra in remover.liveValues <==> ra in live
      invariant !changed ==> remover.prog == p
      invariant changed <==> exists g :: 0 <= g < f && !KeepsAll(PlanFor(p[g], g, live))
    {
      OneMore(p, live, f);
      PlanIsPlanned(p, live, f, remover);
      ghost var before := remover.prog;
      var more := remover.RemoveDeadStuffFromFunction(f);
      if !more {
        NothingToDo(before, Only(before, f, PlanFor(p[f], f, live)));
      }
      changed := changed || more;
    }
    q := remover.prog;
    PlansKeepLive(p, live);
    FinalPlans(p, live);
    LeastIsLeastUsed(p, live);
    WhatIsKept(p, live);
    ghost var plans := PlansUpTo(p, live, |p|);
    forall prims: Prims, h: FnId, args: seq<Value>, fuel: nat | h < |p| && |args| == p[h].nparams
      ensures OutcomesAgree(p, live, plans, h, Run(p, prims, h, args, fuel),
                            Run(q, prims, h, Filter(args, plans[h].args), fuel))
    {
      RunsAgree(p, live, plans, prims, h, args, fuel);
    }
    forall prims: Prims, h: FnId, args: seq<Value>, fuel: nat | h < |p| && |args| == p[h].nparams && p[h].pinned
      ensures Run(q, prims, h, args, fuel) == Run(p, prims, h, args, fuel)
    {
      PinnedRunsEqual(p, live, PlansUpTo(p, live, |p|), prims, h, args, fuel);
    }
  }

  /** Which parameters and components are kept, and how many. */
  lemma WhatIsKept(p: Program, live: set<RetOrArg>)
    requires ProgramOk(p)
    ensures var plans := PlansUpTo(p, live, |p|);
            (forall f: FnId, i: nat | f < |p| && i < p[f].nparams :: plans[f].args[i] <==> Arg(f, i) in live)
            && (forall f: FnId, r: nat | f < |p| && r < p[f].nrets ::
                  plans[f].rets[r] <==> Ret(f, r) in live || exists i :: i in p[f].returned && Arg(f, i) in live)
            && forall f: FnId | f < |p| ::
                 MapProgram(p, plans)[f].nparams == Count(plans[f].args)
                 && MapProgram(p, plans)[f].nrets == Count(plans[f].rets)
                 && MapProgram(p, plans)[f].pinned == p[f].pinned && MapProgram(p, plans)[f].fixedArgs == p[f].fixedArgs
  {
    hide BodyOk, Count, MapBody;
    FinalPlans(p, live);
    forall f: FnId | f < |p|
      ensures KeepsResult(p[f], f, live) <==> exists i :: i in p[f].returned && Arg(f, i) in live
    {
    }
  }

  lemma FinalPlans(p: Program, live: set<RetOrArg>)
    ensures forall f | 0 <= f < |p| :: PlansUpTo(p, live, |p|)[f] == PlanFor(p[f], f, live)
  {
  }

  lemma {:induction false} NoPlans(p: Program, live: set<RetOrArg>)
    requires ProgramOk(p)
    ensures MapProgram(p, PlansUpTo(p, live, 0)) == p
  {
    NothingToDo(p, PlansUpTo(p, live, 0));
  }

  lemma {:induction false} PlanIsPlanned(p: Program, live: set<RetOrArg>, f: FnId, remover: DeadArgEliminator)
    requires ProgramOk(p) && f < |p| && Closed(p, live) && remover.prog == MapProgram(p, PlansUpTo(p, live, f))
    requires f in remover.liveFunctions <==> p[f].pinned
    requires !p[f].pinned ==> forall ra | IsValue(p, ra) && ra.f == f :: ra in remover.liveValues <==> ra in live
    ensures remover.Planned(f) == PlanFor(p[f], f, live)
  {
    NotReached(p, live, f, f);
    if p[f].pinned {
      PinnedPlan(p, live, f);
      assert Identity(p[f]) == Identity(remover.prog[f]);
    } else {
      PlanForSame(remover.prog[f], p[f], f, remover.liveValues, live);
    }
  }
}
