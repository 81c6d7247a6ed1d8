/** Parameters marked as being the result. The removal keeps such a mark, together with the result, when
    the parameter is live, without making the result live: what the result is computed from may be
    dropped all the same, and the mark become false. */
module DeadReturned {
  import opened Calls
  import opened Liveness
  import opened Keep
  import opened SignatureRewrite
  import opened DeadValues
  import opened DeadArgElimination

  // ----- the original program with the dropped values undefined -----

  function Mask(vs: seq<Value>, keep: seq<bool>): (ws: seq<Value>)
    ensures |ws| == |vs|
  {
    seq(|vs|, i requires 0 <= i < |vs| => if i < |keep| && !keep[i] then UndefValue else vs[i])
  }

  /** Runs a body like `Eval`, except that dropped arguments and results of calls are undefined. */
  function EvalMasked(p: Program, plans: Plans, prims: Prims, b: Body, params: seq<Value>, locs: seq<seq<Value>>,
                      fuel: nat): Outcome
    requires |plans| == |p|
    decreases fuel, b
  {
    match b
    case Op(code, args, rest) =>
      EvalMasked(p, plans, prims, rest, params, locs + [[prims(code, OpVals(args, params, locs))]], fuel)
    case Call(g, args, rest) =>
      if g >= |p| then Stuck
      else if fuel == 0 then OutOfFuel
      else
        var vs := Mask(OpVals(args, params, locs), plans[g].args);
        var r := EvalMasked(p, plans, prims, p[g].body, vs, [], fuel - 1);
        if !r.Done? then r
        else
          AfterOutput(r.out, EvalMasked(p, plans, prims, rest, params, locs + [Mask(r.rets, plans[g].rets)], fuel))
    case Output(v, rest) =>
      AfterOutput(AggregateVal(v, params, locs), EvalMasked(p, plans, prims, rest, params, locs, fuel))
    case If(c, thn, els) =>
      var v := OpVal(c, params, locs);
      if v.UndefValue? then Stuck
      else EvalMasked(p, plans, prims, if v.n != 0 then thn else els, params, locs, fuel)
    case Return(v) => Done(AggregateVal(v, params, locs), [])
  }

  function MaskedRun(p: Program, plans: Plans, prims: Prims, h: FnId, args: seq<Value>, fuel: nat): Outcome
    requires h < |p| == |plans|
  {
    EvalMasked(p, plans, prims, p[h].body, Mask(args, plans[h].args), [], fuel)
  }

  // ----- it is what the rewritten program does -----

  /** The kept values of vs are in ws under their new numbers; the others are undefined. */
  ghost predicate Renumbered(keep: seq<bool>, vs: seq<Value>, ws: seq<Value>) {
    forall i: nat | i < |keep| ::
      At(vs, i) == if NewIndex(keep, i) >= 0 then At(ws, NewIndex(keep, i)) else UndefValue
  }

  ghost predicate SlotMasked(p: Program, plans: Plans, b: Binder, rs: seq<Value>, ss: seq<Value>)
    requires Fits(p, plans)
  {
    match b
    case OpB => rs == ss
    case CallB(g) =>
      g < |p| && |rs| == p[g].nrets && |ss| == Count(plans[g].rets) && Renumbered(plans[g].rets, rs, ss)
  }

  ghost predicate LocsMasked(p: Program, plans: Plans, ctx: seq<Binder>, ls: seq<seq<Value>>, ms: seq<seq<Value>>)
    requires Fits(p, plans)
  {
    |ls| == |ctx| && |ms| == |ctx| && forall k | 0 <= k < |ctx| :: SlotMasked(p, plans, ctx[k], ls[k], ms[k])
  }

  /** q is o with only the kept results. */
  ghost predicate OutcomeMasked(p: Program, plans: Plans, h: FnId, o: Outcome, q: Outcome)
    requires Fits(p, plans) && h < |p|
  {
    match o
    case Done(rs, out) => |rs| == p[h].nrets && q == Done(Filter(rs, plans[h].rets), out)
    case _ => q == o
  }

  lemma {:induction false} OperandMasked(p: Program, plans: Plans, h: FnId, ctx: seq<Binder>, o: Operand,
                                         ps: seq<Value>, qs: seq<Value>, ls: seq<seq<Value>>, ms: seq<seq<Value>>)
    requires Fits(p, plans) && h < |p| && OperandOk(p, h, ctx, o)
    requires Renumbered(plans[h].args, ps, qs) && LocsMasked(p, plans, ctx, ls, ms)
    ensures OpVal(o, ps, ls) == OpVal(MapOperand(plans, h, ctx, o), qs, ms)
  {
    match o
    case Loc(k, r) => assert SlotMasked(p, plans, ctx[k], ls[k], ms[k]);
    case _ =>
  }

  lemma {:induction false} ListMasked(p: Program, plans: Plans, h: FnId, ctx: seq<Binder>, ops: seq<Operand>,
                                      ps: seq<Value>, qs: seq<Value>, ls: seq<seq<Value>>, ms: seq<seq<Value>>)
    requires Fits(p, plans) && h < |p| && OperandsOk(p, h, ctx, ops)
    requires Renumbered(plans[h].args, ps, qs) && LocsMasked(p, plans, ctx, ls, ms)
    ensures OpVals(ops, ps, ls) == OpVals(MapOperands(plans, h, ctx, ops), qs, ms)
  {
    forall j | 0 <= j < |ops| ensures OpVal(ops[j], ps, ls) == OpVal(MapOperand(plans, h, ctx, ops[j]), qs, ms) {
      assert OperandOk(p, h, ctx, ops[j]);
      OperandMasked(p, plans, h, ctx, ops[j], ps, qs, ls, ms);
    }
  }

  lemma {:induction false} FilteredVals(ops: seq<Operand>, keep: seq<bool>, qs: seq<Value>, ms: seq<seq<Value>>)
    requires |ops| == |keep|
    ensures OpVals(Filter(ops, keep), qs, ms) == Filter(OpVals(ops, qs, ms), keep)
    decreases |ops|
  {
    if ops != [] {
      var n := |ops| - 1;
      FilteredVals(ops[..n], keep[..n], qs, ms);
      assert OpVals(ops, qs, ms)[..n] == OpVals(ops[..n], qs, ms);
    }
  }

  /** A whole result that is kept whole is the same; taken apart, its components are. */
  lemma {:induction false} WholeMasked(p: Program, plans: Plans, h: FnId, ctx: seq<Binder>, k: nat, ps: seq<Value>,
                                       qs: seq<Value>, ls: seq<seq<Value>>, ms: seq<seq<Value>>)
    requires Fits(p, plans) && h < |p| && k < |ctx| && ctx[k].CallB? && ctx[k].f < |p|
    requires Renumbered(plans[h].args, ps, qs) && LocsMasked(p, plans, ctx, ls, ms)
    ensures |ls[k]| == p[ctx[k].f].nrets
    ensures OpVals(MapOperands(plans, h, ctx, Components(k, p[ctx[k].f].nrets)), qs, ms) == ls[k]
    ensures All(plans[ctx[k].f].rets) ==> ms[k] == ls[k]
  {
    var g := ctx[k].f;
    assert SlotMasked(p, plans, ctx[k], ls[k], ms[k]);
    ListMasked(p, plans, h, ctx, Components(k, p[g].nrets), ps, qs, ls, ms);
    if All(plans[g].rets) {
      CountAll(plans[g].rets);
      forall r: nat | r < p[g].nrets ensures ls[k][r] == ms[k][r] {
        assert At(ls[k], r) == At(ms[k], r);
      }
    }
  }

  lemma {:induction false} ReturnMasked(p: Program, plans: Plans, h: FnId, ctx: seq<Binder>, v: Aggregate,
                                        ps: seq<Value>, qs: seq<Value>, ls: seq<seq<Value>>, ms: seq<seq<Value>>)
    requires Fits(p, plans) && h < |p| && BodyOk(p, h, ctx, Return(v))
    requires Renumbered(plans[h].args, ps, qs) && LocsMasked(p, plans, ctx, ls, ms)
    ensures |AggregateVal(v, ps, ls)| == p[h].nrets
    ensures AggregateVal(MapReturned(plans, h, ctx, v), qs, ms) == Filter(AggregateVal(v, ps, ls), plans[h].rets)
  {
    hide Renumbered, LocsMasked;
    var keep := plans[h].rets;
    match v
    case Parts(ops) =>
      ListMasked(p, plans, h, ctx, ops, ps, qs, ls, ms);
      FilteredVals(MapOperands(plans, h, ctx, ops), keep, qs, ms);
    case Whole(k) =>
      WholeMasked(p, plans, h, ctx, k, ps, qs, ls, ms);
      SameSize(p, plans, ctx, ls, ms);
      if All(plans[ctx[k].f].rets) && All(keep) {
        FilterAll(ls[k], keep);
      } else {
        FilteredVals(MapOperands(plans, h, ctx, Components(k, p[h].nrets)), keep, qs, ms);
      }
  }

  lemma SameSize(p: Program, plans: Plans, ctx: seq<Binder>, ls: seq<seq<Value>>, ms: seq<seq<Value>>)
    requires Fits(p, plans) && LocsMasked(p, plans, ctx, ls, ms)
    ensures |ls| == |ctx| && |ms| == |ctx|
  {
  }

  lemma {:induction false} OutputMasked(p: Program, plans: Plans, h: FnId, ctx: seq<Binder>, v: Aggregate,
                                        ps: seq<Value>, qs: seq<Value>, ls: seq<seq<Value>>, ms: seq<seq<Value>>)
    requires Fits(p, plans) && h < |p| && AggregateOk(p, h, ctx, v)
    requires Renumbered(plans[h].args, ps, qs) && LocsMasked(p, plans, ctx, ls, ms)
    ensures AggregateVal(MapOutput(plans, h, ctx, v), qs, ms) == AggregateVal(v, ps, ls)
  {
    hide Renumbered, LocsMasked;
    SameSize(p, plans, ctx, ls, ms);
    match v
    case Parts(ops) => ListMasked(p, plans, h, ctx, ops, ps, qs, ls, ms);
    case Whole(k) => WholeMasked(p, plans, h, ctx, k, ps, qs, ls, ms);
  }

  /** Filtering and masking leave the same values, numbered differently. */
  lemma {:induction false} FilterRenumbers(vs: seq<Value>, keep: seq<bool>)
    requires |vs| == |keep|
    ensures Renumbered(keep, Mask(vs, keep), Filter(vs, keep))
  {
    forall i: nat | i < |keep| && keep[i] ensures At(Filter(vs, keep), NewIndex(keep, i)) == vs[i] {
      FilterAt(vs, keep, i);
    }
  }

  lemma {:induction false} ArgumentsMasked(p: Program, plans: Plans, h: FnId, ctx: seq<Binder>, args: seq<Operand>,
                                           keep: seq<bool>, ps: seq<Value>, qs: seq<Value>, ls: seq<seq<Value>>,
                                           ms: seq<seq<Value>>)
    requires Fits(p, plans) && h < |p| && OperandsOk(p, h, ctx, args) && |keep| <= |args|
    requires Renumbered(plans[h].args, ps, qs) && LocsMasked(p, plans, ctx, ls, ms)
    ensures Renumbered(keep, Mask(OpVals(args, ps, ls), keep),
                       OpVals(KeepFirst(MapOperands(plans, h, ctx, args), keep), qs, ms))
  {
    var mapped := MapOperands(plans, h, ctx, args);
    ListMasked(p, plans, h, ctx, args, ps, qs, ls, ms);
    forall i: nat | i < |keep| && keep[i]
      ensures At(OpVals(KeepFirst(mapped, keep), qs, ms), NewIndex(keep, i)) == OpVals(args, ps, ls)[i]
    {
      FilterAt(mapped[..|keep|], keep, i);
      assert OpVals(mapped, qs, ms)[i] == OpVal(mapped[i], qs, ms);
    }
  }

  lemma MoreLocs(p: Program, plans: Plans, ctx: seq<Binder>, ls: seq<seq<Value>>, ms: seq<seq<Value>>, b: Binder,
                 rs: seq<Value>, ss: seq<Value>)
    requires Fits(p, plans) && LocsMasked(p, plans, ctx, ls, ms) && SlotMasked(p, plans, b, rs, ss)
    ensures LocsMasked(p, plans, ctx + [b], ls + [rs], ms + [ss])
  {
  }

  lemma {:induction false} CalleeMasked(p: Program, plans: Plans, g: FnId)
    requires ProgramOk(p) && Fits(p, plans) && g < |p|
    ensures BodyOk(p, g, [], p[g].body) && LocsMasked(p, plans, [], [], [])
    ensures |plans| == |p| && |plans[g].args| == p[g].nparams && |plans[g].rets| == p[g].nrets
    ensures |MapProgram(p, plans)| == |p| && MapProgram(p, plans)[g].body == MapBody(p, plans, g, [], p[g].body)
  {
  }

  /** A body of the rewritten program does what the original does with the dropped values undefined. */
  lemma {:induction false} BodyMasked(p: Program, plans: Plans, prims: Prims, h: FnId, ctx: seq<Binder>, b: Body,
                                      ps: seq<Value>, qs: seq<Value>, ls: seq<seq<Value>>, ms: seq<seq<Value>>,
                                      fuel: nat)
    requires ProgramOk(p) && Fits(p, plans) && h < |p| && BodyOk(p, h, ctx, b)
    requires Renumbered(plans[h].args, ps, qs) && LocsMasked(p, plans, ctx, ls, ms)
    ensures OutcomeMasked(p, plans, h, EvalMasked(p, plans, prims, b, ps, ls, fuel),
                          Eval(MapProgram(p, plans), prims, MapBody(p, plans, h, ctx, b), qs, ms, fuel))
    decreases fuel, b
  {
    hide Fits, Renumbered, LocsMasked, ProgramOk, OperandOk, OperandsOk, MapOperand, MapOperands, MapReturned,
         MapOutput, MapFn, AggregateVal, OpVals, KeepFirst, Filter, Mask;
    var q := MapProgram(p, plans);
    CalleeMasked(p, plans, h);
    match b
    case Op(code, args, rest) =>
      ListMasked(p, plans, h, ctx, args, ps, qs, ls, ms);
      var v := [prims(code, OpVals(args, ps, ls))];
      MoreLocs(p, plans, ctx, ls, ms, OpB, v, v);
      BodyMasked(p, plans, prims, h, ctx + [OpB], rest, ps, qs, ls + [v], ms + [v], fuel);
    case Call(g, args, rest) =>
      CalleeMasked(p, plans, g);
      if fuel > 0 {
        ArgumentsMasked(p, plans, h, ctx, args, plans[g].args, ps, qs, ls, ms);
        var vs := Mask(OpVals(args, ps, ls), plans[g].args);
        var ws := OpVals(KeepFirst(MapOperands(plans, h, ctx, args), plans[g].args), qs, ms);
        BodyMasked(p, plans, prims, g, [], p[g].body, vs, ws, [], [], fuel - 1);
        var r := EvalMasked(p, plans, prims, p[g].body, vs, [], fuel - 1);
        var s := Eval(q, prims, q[g].body, ws, [], fuel - 1);
        if r.Done? {
          FilterRenumbers(r.rets, plans[g].rets);
          var rs := Mask(r.rets, plans[g].rets);
          MoreLocs(p, plans, ctx, ls, ms, CallB(g), rs, s.rets);
          BodyMasked(p, plans, prims, h, ctx + [CallB(g)], rest, ps, qs, ls + [rs], ms + [s.rets], fuel);
        }
      }
    case Output(v, rest) =>
      OutputMasked(p, plans, h, ctx, v, ps, qs, ls, ms);
      BodyMasked(p, plans, prims, h, ctx, rest, ps, qs, ls, ms, fuel);
    case If(c, thn, els) =>
      OperandMasked(p, plans, h, ctx, c, ps, qs, ls, ms);
      BodyMasked(p, plans, prims, h, ctx, thn, ps, qs, ls, ms, fuel);
      BodyMasked(p, plans, prims, h, ctx, els, ps, qs, ls, ms, fuel);
    case Return(v) =>
      ReturnMasked(p, plans, h, ctx, v, ps, qs, ls, ms);
  }

  /** Whatever is dropped, live or not, the rewritten program runs like the original with the dropped
      arguments and results undefined. */
  lemma {:induction false} RunMasked(p: Program, plans: Plans, prims: Prims, h: FnId, args: seq<Value>, fuel: nat)
    requires ProgramOk(p) && Fits(p, plans) && h < |p| && |args| == p[h].nparams
    ensures OutcomeMasked(p, plans, h, MaskedRun(p, plans, prims, h, args, fuel),
                          Run(MapProgram(p, plans), prims, h, Filter(args, plans[h].args), fuel))
  {
    CalleeMasked(p, plans, h);
    FilterRenumbers(args, plans[h].args);
    BodyMasked(p, plans, prims, h, [], p[h].body, Mask(args, plans[h].args), Filter(args, plans[h].args), [], [], fuel);
  }

  // ----- marks -----

  /** Parameter i of h is the result in every run. */
  ghost predicate IsResult(p: Program, h: FnId, i: nat)
    requires h < |p| && i < p[h].nparams
  {
    forall prims: Prims, args: seq<Value>, fuel: nat | |args| == p[h].nparams && Run(p, prims, h, args, fuel).Done? ::
      Run(p, prims, h, args, fuel).rets == [args[i]]
  }

  /** The same with the dropped values undefined. */
  ghost predicate IsMaskedResult(p: Program, plans: Plans, h: FnId, i: nat)
    requires h < |p| == |plans| && i < p[h].nparams
  {
    forall prims: Prims, args: seq<Value>, fuel: nat
      | |args| == p[h].nparams && MaskedRun(p, plans, prims, h, args, fuel).Done? ::
      MaskedRun(p, plans, prims, h, args, fuel).rets == [args[i]]
  }

  /** Some arguments of which the given ones are kept. */
  lemma {:induction false} Unfiltered(keep: seq<bool>, ws: seq<Value>) returns (vs: seq<Value>)
    requires |ws| == Count(keep)
    ensures |vs| == |keep| && Filter(vs, keep) == ws
    decreases |keep|
  {
    if keep == [] {
      vs := [];
    } else {
      var n := |keep| - 1;
      if keep[n] {
        vs := Unfiltered(keep[..n], ws[..|ws| - 1]);
        vs := vs + [ws[|ws| - 1]];
      } else {
        vs := Unfiltered(keep[..n], ws);
        vs := vs + [UndefValue];
      }
      assert vs[..n] + [vs[n]] == vs;
    }
  }

  /** A parameter that is kept, and its function's result with it, is still the result exactly if in no
      run of the original an undefined value, where something was dropped, makes the result differ. */
  lemma {:induction false} MarkStaysIff(p: Program, plans: Plans, h: FnId, i: nat)
    requires ProgramOk(p) && Fits(p, plans) && h < |p| && i < p[h].nparams
    requires plans[h].args[i] && All(plans[h].rets)
    ensures |MapProgram(p, plans)| == |p| && 0 <= NewIndex(plans[h].args, i) < MapProgram(p, plans)[h].nparams
    ensures IsResult(MapProgram(p, plans), h, NewIndex(plans[h].args, i)) <==> IsMaskedResult(p, plans, h, i)
  {
    hide MaskedRun, Run, Filter;
    var q, keep, j := MapProgram(p, plans), plans[h].args, NewIndex(plans[h].args, i);
    NewIndexInRange(keep, i);
    if IsResult(q, h, j) {
      forall prims: Prims, args: seq<Value>, fuel: nat
        | |args| == p[h].nparams && MaskedRun(p, plans, prims, h, args, fuel).Done?
        ensures MaskedRun(p, plans, prims, h, args, fuel).rets == [args[i]]
      {
        RunMasked(p, plans, prims, h, args, fuel);
        FilterAll(MaskedRun(p, plans, prims, h, args, fuel).rets, plans[h].rets);
        FilterAt(args, keep, i);
      }
    }
    if IsMaskedResult(p, plans, h, i) {
      forall prims: Prims, args: seq<Value>, fuel: nat
        | |args| == q[h].nparams && Run(q, prims, h, args, fuel).Done?
        ensures Run(q, prims, h, args, fuel).rets == [args[j]]
      {
        var vs := Unfiltered(keep, args);
        RunMasked(p, plans, prims, h, vs, fuel);
        FilterAll(MaskedRun(p, plans, prims, h, vs, fuel).rets, plans[h].rets);
        FilterAt(vs, keep, i);
      }
    }
  }

  /** What the pass does with a marked parameter: if it is live, the result is kept too. */
  lemma MarkedKeepsResult(p: Program, live: set<RetOrArg>, h: FnId, i: nat)
    requires ProgramOk(p) && h < |p| && i in p[h].returned && Arg(h, i) in live
    ensures i < p[h].nparams && PlansUpTo(p, live, |p|)[h].args[i] && All(PlansUpTo(p, live, |p|)[h].rets)
  {
    FinalPlans(p, live);
    assert KeepsResult(p[h], h, live);
  }

  /** If the result is live as well, or belongs to any closed set of values all of which are kept, the
      mark stays true. */
  lemma {:induction false} LiveResultStays(p: Program, live: set<RetOrArg>, plans: Plans, h: FnId, i: nat)
    requires KeepsLive(p, live, plans) && h < |p| && i < p[h].nparams && Arg(h, i) in live && Ret(h, 0) in live
    requires All(plans[h].rets) && plans[h].args[i] && IsResult(p, h, i)
    ensures |MapProgram(p, plans)| == |p| && 0 <= NewIndex(plans[h].args, i) < MapProgram(p, plans)[h].nparams
    ensures IsResult(MapProgram(p, plans), h, NewIndex(plans[h].args, i))
  {
    hide Run, Filter, KeepsLive;
    BodyIsOk(p, live, plans);
    var q, keep, j := MapProgram(p, plans), plans[h].args, NewIndex(plans[h].args, i);
    NewIndexInRange(keep, i);
    CountAll(plans[h].rets);
    forall prims: Prims, args: seq<Value>, fuel: nat
      | |args| == q[h].nparams && Run(q, prims, h, args, fuel).Done?
      ensures Run(q, prims, h, args, fuel).rets == [args[j]]
    {
      var vs := Unfiltered(keep, args);
      RunsAgree(p, live, plans, prims, h, vs, fuel);
      FilterAt(vs, keep, i);
      var rs := Run(p, prims, h, vs, fuel).rets;
      assert rs == [vs[i]];
      assert SameAt(plans[h].rets, rs, Run(q, prims, h, args, fuel).rets, 0);
    }
  }

  /** After the pass: a live marked parameter is still the result exactly if it is with the dropped values
      undefined, and certainly if it was before and the result is live too. */
  lemma {:induction false} PassKeepsMarkIff(p: Program, live: set<RetOrArg>, h: FnId, i: nat)
    requires ProgramOk(p) && Closed(p, live) && h < |p| && i in p[h].returned && Arg(h, i) in live
    ensures i < p[h].nparams
    ensures var plans := PlansUpTo(p, live, |p|);
            var q, j := MapProgram(p, plans), NewIndex(plans[h].args, i);
            j >= 0 && j in q[h].returned && j < q[h].nparams
            && (IsResult(q, h, j) <==> IsMaskedResult(p, plans, h, i))
            && (Ret(h, 0) in live && IsResult(p, h, i) ==> IsResult(q, h, j))
  {
    hide IsResult, IsMaskedResult;
    var plans := PlansUpTo(p, live, |p|);
    MarkedKeepsResult(p, live, h, i);
    MarkStaysIff(p, plans, h, i);
    PlansKeepLive(p, live);
    assert MapProgram(p, plans)[h] == MapFn(p, plans, h);
    if Ret(h, 0) in live && IsResult(p, h, i) { LiveResultStays(p, live, plans, h, i); }
  }

  // ----- a mark that becomes false -----

  /** An entry point calls one(7) and drops the result; one(x) prints x and returns what two(x) returns;
      two(x) returns x. Both parameters are marked as the result. */
  const MARKED: Program := [
    Fn(0, 0, Call(1, [Lit(7)], Return(Parts([]))), true, false, {}),
    Fn(1, 1, Output(Parts([Param(0)]), Call(2, [Param(0)], Return(Whole(0)))), false, false, {0}),
    Fn(1, 1, Return(Parts([Param(0)])), false, false, {0})]

  /** Only what is printed is live. */
  const PRINTED: set<RetOrArg> := {Arg(1, 0)}

  const MARKED_FACTS: seq<Fact> := [
    ArgUse(1, 0, OtherUse), ArgUse(1, 0, Argument(2, 0)), AggregateUse(2, ReturnWhole(1)),
    ArgUse(2, 0, ReturnPart(2, 0))]

  lemma {:induction false} MarkedOk()
    ensures ProgramOk(MARKED)
  {
  }

  lemma {:induction false} FactsOfMarked()
    ensures AllFacts(MARKED) == MARKED_FACTS
  {
    assert BodyFacts(MARKED, 0, [], MARKED[0].body) == [];
    assert BodyFacts(MARKED, 1, [], MARKED[1].body) == MARKED_FACTS[..3];
    assert BodyFacts(MARKED, 2, [], MARKED[2].body) == MARKED_FACTS[3..];
    assert FactsUpTo(MARKED, 0) == [];
    assert FactsUpTo(MARKED, 1) == [];
    assert FactsUpTo(MARKED, 2) == MARKED_FACTS[..3];
  }

  lemma {:induction false} PrintedIsLeast()
    ensures IsLeastLive(MARKED, PRINTED)
  {
    hide AllFacts;
    FactsOfMarked();
    assert MARKED_FACTS[0] in MARKED_FACTS;
    forall other: set<RetOrArg> | Closed(MARKED, other) ensures PRINTED <= other {
      assert HasLiveUse(MARKED, other, Arg(1, 0));
    }
  }

  lemma {:induction false} MarksHold()
    ensures IsResult(MARKED, 1, 0) && IsResult(MARKED, 2, 0)
  {
    forall prims: Prims, args: seq<Value>, fuel: nat | |args| == 1 && Run(MARKED, prims, 1, args, fuel).Done?
      ensures Run(MARKED, prims, 1, args, fuel).rets == [args[0]]
    {
      assert OpVals([Param(0)], args, []) == args;
      if fuel > 0 {
        var call := Call(2, [Param(0)], Return(Whole(0)));
        assert Eval(MARKED, prims, MARKED[2].body, args, [], fuel - 1) == Done(args, []);
        assert Eval(MARKED, prims, Return(Whole(0)), args, [] + [args], fuel) == Done(args, []);
        assert Eval(MARKED, prims, call, args, [], fuel) == Done(args, []);
      }
    }
  }

  /** Everywhere marks are true; the pass drops the parameter of two, with its result, but leaves the
      mark on the parameter of one, which then returns an undefined value. */
  lemma {:induction false} MarkBecomesFalse()
    ensures ProgramOk(MARKED) && IsLeastLive(MARKED, PRINTED) && IsResult(MARKED, 1, 0) && IsResult(MARKED, 2, 0)
    ensures var q := MapProgram(MARKED, PlansUpTo(MARKED, PRINTED, 3));
            0 in q[1].returned && q[1].nparams == 1 && !IsResult(q, 1, 0)
  {
    hide IsLeastLive, IsResult, IsMaskedResult;
    MarkedOk();
    PrintedIsLeast();
    MarksHold();
    var plans := PlansUpTo(MARKED, PRINTED, 3);
    MarkedKeepsResult(MARKED, PRINTED, 1, 0);
    MarkStaysIff(MARKED, plans, 1, 0);
    UndefinedReturned();
    assert plans[1].args == [true];
  }

  lemma {:induction false} UndefinedReturned()
    ensures !IsMaskedResult(MARKED, PlansUpTo(MARKED, PRINTED, 3), 1, 0)
  {
    var plans := PlansUpTo(MARKED, PRINTED, 3);
    FinalPlans(MARKED, PRINTED);
    var prims: Prims := (c, vs) => UndefValue;
    var args := [Int(1)];
    assert !KeepsResult(MARKED[2], 2, PRINTED) && Arg(2, 0) !in PRINTED && Ret(2, 0) !in PRINTED;
    assert plans[1].args == [true] && plans[2].args == [false] && plans[2].rets == [false];
    assert Mask(args, plans[1].args) == args;
    assert MaskedRun(MARKED, plans, prims, 1, args, 1).rets == [UndefValue];
  }
}
