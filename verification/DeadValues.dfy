/** Dropping dead arguments and results preserves meaning: runs of the original and of the rewritten
    program agree on output and on every live component of every result. */
module DeadValues {
  import opened Calls
  import opened Liveness
  import opened Keep
  import opened SignatureRewrite

  predicate Kept(plans: Plans, ra: RetOrArg)
    requires ra.f < |plans|
  {
    NewIndex(if ra.Arg? then plans[ra.f].args else plans[ra.f].rets, ra.i) >= 0
  }

  /** What may be dropped: nothing in a set closed under liveness. */
  ghost predicate KeepsLive(p: Program, live: set<RetOrArg>, plans: Plans) {
    ProgramOk(p) && Fits(p, plans) && Closed(p, live)
    && forall ra | IsValue(p, ra) && ra in live :: Kept(plans, ra)
  }

  // ----- how states of the two programs correspond -----

  predicate SameAt(keep: seq<bool>, vs: seq<Value>, ws: seq<Value>, i: nat) {
    NewIndex(keep, i) >= 0 && At(vs, i) == At(ws, NewIndex(keep, i))
  }

  ghost predicate ParamsAgree(p: Program, live: set<RetOrArg>, plans: Plans, f: FnId, ps: seq<Value>, qs: seq<Value>)
    requires f < |p| && f < |plans|
  {
    forall i: nat | i < p[f].nparams && Arg(f, i) in live :: SameAt(plans[f].args, ps, qs, i)
  }

  ghost predicate ResultsAgree(p: Program, live: set<RetOrArg>, plans: Plans, f: FnId, rs: seq<Value>, ss: seq<Value>)
    requires f < |p| && f < |plans|
  {
    |rs| == p[f].nrets && |ss| == Count(plans[f].rets)
    && forall r: nat | r < p[f].nrets && Ret(f, r) in live :: SameAt(plans[f].rets, rs, ss, r)
  }

  ghost predicate SlotAgrees(p: Program, live: set<RetOrArg>, plans: Plans, b: Binder, rs: seq<Value>, ss: seq<Value>)
    requires |plans| == |p|
  {
    match b
    case OpB => rs == ss
    case CallB(g) => g < |p| && ResultsAgree(p, live, plans, g, rs, ss)
  }

  ghost predicate LocsAgree(p: Program, live: set<RetOrArg>, plans: Plans, ctx: seq<Binder>, ls: seq<seq<Value>>,
                            ms: seq<seq<Value>>)
    requires |plans| == |p|
  {
    |ls| == |ctx| && |ms| == |ctx| && forall k | 0 <= k < |ctx| :: SlotAgrees(p, live, plans, ctx[k], ls[k], ms[k])
  }

  ghost predicate OutcomesAgree(p: Program, live: set<RetOrArg>, plans: Plans, f: FnId, o: Outcome, q: Outcome)
    requires f < |p| && f < |plans|
  {
    match o
    case Done(rs, out) => q.Done? && q.out == out && ResultsAgree(p, live, plans, f, rs, q.rets)
    case _ => q == o
  }

  // ----- operands -----

  ghost predicate Known(p: Program, facts: seq<Fact>) {
    forall fact | fact in facts :: fact in AllFacts(p)
  }

  lemma {:induction false} OperandAgrees(p: Program, live: set<RetOrArg>, plans: Plans, h: FnId, ctx: seq<Binder>,
                                         o: Operand, use: Use, ps: seq<Value>, qs: seq<Value>, ls: seq<seq<Value>>,
                                         ms: seq<seq<Value>>)
    requires KeepsLive(p, live, plans) && h < |p| && OperandOk(p, h, ctx, o)
    requires ParamsAgree(p, live, plans, h, ps, qs) && LocsAgree(p, live, plans, ctx, ls, ms)
    requires Known(p, OperandFacts(h, ctx, o, use)) && UseLive(p, live, use)
    ensures OpVal(o, ps, ls) == OpVal(MapOperand(plans, h, ctx, o), qs, ms)
  {
    match o
    case Param(i) =>
      var fact := ArgUse(h, i, use);
      assert fact in OperandFacts(h, ctx, o, use);
      assert HasLiveUse(p, live, Arg(h, i));
      assert SameAt(plans[h].args, ps, qs, i);
    case Loc(k, r) =>
      assert SlotAgrees(p, live, plans, ctx[k], ls[k], ms[k]);
      if ctx[k].CallB? {
        var g := ctx[k].f;
        var fact := ExtractUse(g, r, use);
        assert fact in OperandFacts(h, ctx, o, use);
        assert HasLiveUse(p, live, Ret(g, r));
        assert SameAt(plans[g].rets, ls[k], ms[k], r);
      }
    case _ =>
  }

  lemma {:induction false} ListFactsHold(h: FnId, ctx: seq<Binder>, ops: seq<Operand>, pos: Position, n: nat, j: nat)
    requires j < n <= |ops|
    ensures forall fact | fact in OperandFacts(h, ctx, ops[j], UseAt(pos, j)) :: fact in ListFacts(h, ctx, ops, pos, n)
    decreases n
  {
    if j < n - 1 {
      ListFactsHold(h, ctx, ops, pos, n - 1, j);
    }
  }

  /** An operand of a list whose use is live has the same value in both programs. */
  lemma {:induction false} ListedAgrees(p: Program, live: set<RetOrArg>, plans: Plans, h: FnId, ctx: seq<Binder>,
                                        ops: seq<Operand>, pos: Position, j: nat, ps: seq<Value>, qs: seq<Value>,
                                        ls: seq<seq<Value>>, ms: seq<seq<Value>>)
    requires KeepsLive(p, live, plans) && h < |p| && OperandsOk(p, h, ctx, ops) && j < |ops|
    requires ParamsAgree(p, live, plans, h, ps, qs) && LocsAgree(p, live, plans, ctx, ls, ms)
    requires Known(p, ListFacts(h, ctx, ops, pos, |ops|)) && UseLive(p, live, UseAt(pos, j))
    ensures OpVal(ops[j], ps, ls) == OpVal(MapOperand(plans, h, ctx, ops[j]), qs, ms)
  {
    ListFactsHold(h, ctx, ops, pos, |ops|, j);
    assert OperandOk(p, h, ctx, ops[j]);
    OperandAgrees(p, live, plans, h, ctx, ops[j], UseAt(pos, j), ps, qs, ls, ms);
  }

  lemma {:induction false} PlainListAgrees(p: Program, live: set<RetOrArg>, plans: Plans, h: FnId, ctx: seq<Binder>,
                                           ops: seq<Operand>, ps: seq<Value>, qs: seq<Value>, ls: seq<seq<Value>>,
                                           ms: seq<seq<Value>>)
    requires KeepsLive(p, live, plans) && h < |p| && OperandsOk(p, h, ctx, ops)
    requires ParamsAgree(p, live, plans, h, ps, qs) && LocsAgree(p, live, plans, ctx, ls, ms)
    requires Known(p, ListFacts(h, ctx, ops, Plain, |ops|))
    ensures OpVals(ops, ps, ls) == OpVals(MapOperands(plans, h, ctx, ops), qs, ms)
  {
    forall j | 0 <= j < |ops| ensures OpVal(ops[j], ps, ls) == OpVal(MapOperand(plans, h, ctx, ops[j]), qs, ms) {
      ListedAgrees(p, live, plans, h, ctx, ops, Plain, j, ps, qs, ls, ms);
    }
  }

  lemma {:induction false} OutputAgrees(p: Program, live: set<RetOrArg>, plans: Plans, h: FnId, ctx: seq<Binder>,
                                        v: Aggregate, ps: seq<Value>, qs: seq<Value>, ls: seq<seq<Value>>,
                                        ms: seq<seq<Value>>)
    requires KeepsLive(p, live, plans) && h < |p| && AggregateOk(p, h, ctx, v)
    requires ParamsAgree(p, live, plans, h, ps, qs) && LocsAgree(p, live, plans, ctx, ls, ms)
    requires Known(p, OutputFacts(h, ctx, v))
    ensures AggregateVal(v, ps, ls) == AggregateVal(MapOutput(plans, h, ctx, v), qs, ms)
  {
    match v
    case Parts(ops) => PlainListAgrees(p, live, plans, h, ctx, ops, ps, qs, ls, ms);
    case Whole(k) =>
      var g, fact := ctx[k].f, AggregateUse(ctx[k].f, OtherUse);
      assert fact in OutputFacts(h, ctx, v);
      assert SlotAgrees(p, live, plans, ctx[k], ls[k], ms[k]);
      forall r: nat | r < p[g].nrets ensures plans[g].rets[r] && SameAt(plans[g].rets, ls[k], ms[k], r) {
        assert IsValue(p, Ret(g, r)) && About(p, fact, Ret(g, r)) && HasLiveUse(p, live, Ret(g, r));
        assert Kept(plans, Ret(g, r));
      }
      CountAll(plans[g].rets);
      forall r: nat | r < p[g].nrets ensures ls[k][r] == ms[k][r] {
        assert SameAt(plans[g].rets, ls[k], ms[k], r);
      }
  }

  /** What the callee receives: every live parameter its old value, under its new number. */
  lemma {:induction false} ArgumentsAgree(p: Program, live: set<RetOrArg>, plans: Plans, h: FnId, ctx: seq<Binder>,
                                          g: FnId, args: seq<Operand>, ps: seq<Value>, qs: seq<Value>,
                                          ls: seq<seq<Value>>, ms: seq<seq<Value>>)
    requires KeepsLive(p, live, plans) && h < |p| && g < |p| && OperandsOk(p, h, ctx, args) && |args| >= p[g].nparams
    requires ParamsAgree(p, live, plans, h, ps, qs) && LocsAgree(p, live, plans, ctx, ls, ms)
    requires Known(p, ListFacts(h, ctx, args, ArgsOf(g, p[g].nparams), |args|))
    ensures ParamsAgree(p, live, plans, g, OpVals(args, ps, ls),
                        OpVals(KeepFirst(MapOperands(plans, h, ctx, args), plans[g].args), qs, ms))
  {
    var keep, mapped := plans[g].args, MapOperands(plans, h, ctx, args);
    var pos := ArgsOf(g, p[g].nparams);
    forall i: nat | i < p[g].nparams && Arg(g, i) in live
      ensures SameAt(keep, OpVals(args, ps, ls), OpVals(KeepFirst(mapped, keep), qs, ms), i)
    {
      assert IsValue(p, Arg(g, i)) && Kept(plans, Arg(g, i));
      FilterAt(mapped[..|keep|], keep, i);
      assert Arg(g, i) == Demands(p, UseAt(pos, i))[0];
      ListedAgrees(p, live, plans, h, ctx, args, pos, i, ps, qs, ls, ms);
    }
  }

  lemma {:induction false} PartsAgree(p: Program, live: set<RetOrArg>, plans: Plans, h: FnId, ctx: seq<Binder>,
                                      ops: seq<Operand>, ps: seq<Value>, qs: seq<Value>, ls: seq<seq<Value>>,
                                      ms: seq<seq<Value>>)
    requires KeepsLive(p, live, plans) && h < |p| && OperandsOk(p, h, ctx, ops) && |ops| == p[h].nrets
    requires ParamsAgree(p, live, plans, h, ps, qs) && LocsAgree(p, live, plans, ctx, ls, ms)
    requires Known(p, ListFacts(h, ctx, ops, RetOf(h), |ops|))
    ensures ResultsAgree(p, live, plans, h, OpVals(ops, ps, ls),
                         OpVals(Filter(MapOperands(plans, h, ctx, ops), plans[h].rets), qs, ms))
  {
    var keep, mapped := plans[h].rets, MapOperands(plans, h, ctx, ops);
    forall r: nat | r < p[h].nrets && Ret(h, r) in live
      ensures SameAt(keep, OpVals(ops, ps, ls), OpVals(Filter(mapped, keep), qs, ms), r)
    {
      assert IsValue(p, Ret(h, r)) && Kept(plans, Ret(h, r));
      FilterAt(mapped, keep, r);
      assert Ret(h, r) == Demands(p, UseAt(RetOf(h), r))[0];
      ListedAgrees(p, live, plans, h, ctx, ops, RetOf(h), r, ps, qs, ls, ms);
    }
  }

  /** A returned whole: if any component is live for the caller's callers, all are live in the callee. */
  lemma {:induction false} WholeAgrees(p: Program, live: set<RetOrArg>, plans: Plans, h: FnId, ctx: seq<Binder>, k: nat,
                                       qs: seq<Value>, ls: seq<seq<Value>>, ms: seq<seq<Value>>, r: nat)
    requires KeepsLive(p, live, plans) && h < |p| && BodyOk(p, h, ctx, Return(Whole(k)))
    requires LocsAgree(p, live, plans, ctx, ls, ms)
    requires Known(p, [AggregateUse(ctx[k].f, ReturnWhole(h))])
    requires r < p[h].nrets && Ret(h, r) in live
    ensures NewIndex(plans[h].rets, r) >= 0
    ensures At(ls[k], r) == OpVal(MapOperand(plans, h, ctx, Loc(k, r)), qs, ms)
    ensures All(plans[ctx[k].f].rets) && All(plans[h].rets) ==> SameAt(plans[h].rets, ls[k], ms[k], r)
  {
    var g := ctx[k].f;
    assert IsValue(p, Ret(h, r)) && Kept(plans, Ret(h, r));
    var fact := AggregateUse(g, ReturnWhole(h));
    assert fact in [fact];
    assert Demands(p, fact.use)[r] == Ret(h, r);
    assert IsValue(p, Ret(g, r)) && HasLiveUse(p, live, Ret(g, r));
    assert SlotAgrees(p, live, plans, ctx[k], ls[k], ms[k]);
    assert SameAt(plans[g].rets, ls[k], ms[k], r);
    if All(plans[g].rets) && All(plans[h].rets) {
      CountAll(plans[g].rets);
      CountAll(plans[h].rets);
    }
  }

  lemma {:induction false} ReturnedAgrees(p: Program, live: set<RetOrArg>, plans: Plans, h: FnId, ctx: seq<Binder>,
                                          k: nat, qs: seq<Value>, ls: seq<seq<Value>>, ms: seq<seq<Value>>)
    requires KeepsLive(p, live, plans) && h < |p| && BodyOk(p, h, ctx, Return(Whole(k)))
    requires LocsAgree(p, live, plans, ctx, ls, ms)
    requires Known(p, [AggregateUse(ctx[k].f, ReturnWhole(h))])
    ensures var v := MapReturned(plans, h, ctx, Whole(k));
            ResultsAgree(p, live, plans, h, ls[k], if v.Whole? then ms[k] else OpVals(v.ops, qs, ms))
  {
    var v, keep := MapReturned(plans, h, ctx, Whole(k)), plans[h].rets;
    assert SlotAgrees(p, live, plans, ctx[k], ls[k], ms[k]);
    if v.Whole? {
      CountAll(plans[ctx[k].f].rets);
      CountAll(keep);
    }
    var mapped := MapOperands(plans, h, ctx, Components(k, p[h].nrets));
    forall r: nat | r < p[h].nrets && Ret(h, r) in live
      ensures SameAt(keep, ls[k], if v.Whole? then ms[k] else OpVals(v.ops, qs, ms), r)
    {
      WholeAgrees(p, live, plans, h, ctx, k, qs, ls, ms, r);
      FilterAt(mapped, keep, r);
    }
  }

  lemma {:induction false} ReturnAgrees(p: Program, live: set<RetOrArg>, plans: Plans, h: FnId, ctx: seq<Binder>,
                                        v: Aggregate, ps: seq<Value>, qs: seq<Value>, ls: seq<seq<Value>>,
                                        ms: seq<seq<Value>>)
    requires KeepsLive(p, live, plans) && h < |p| && BodyOk(p, h, ctx, Return(v))
             && Known(p, BodyFacts(p, h, ctx, Return(v)))
    requires ParamsAgree(p, live, plans, h, ps, qs) && LocsAgree(p, live, plans, ctx, ls, ms)
    ensures ResultsAgree(p, live, plans, h, AggregateVal(v, ps, ls),
                         AggregateVal(MapReturned(plans, h, ctx, v), qs, ms))
  {
    hide KeepsLive, ParamsAgree, ResultsAgree, LocsAgree, Known, AllFacts, OperandsOk, ListFacts, Filter;
    BodyIsOk(p, live, plans);
    match v
    case Parts(ops) => PartsAgree(p, live, plans, h, ctx, ops, ps, qs, ls, ms);
    case Whole(k) =>
      ReturnedAgrees(p, live, plans, h, ctx, k, qs, ls, ms);
      LocsSize(p, live, plans, ctx, ls, ms);
  }

  // ----- runs -----

  lemma {:induction false} BodyFactsKnown(p: Program, n: nat, f: FnId)
    requires f < n <= |p|
    ensures forall fact | fact in BodyFacts(p, f, [], p[f].body) :: fact in FactsUpTo(p, n)
    decreases n
  {
    if f < n - 1 {
      BodyFactsKnown(p, n - 1, f);
    }
  }

  lemma KnownParts(p: Program, a: seq<Fact>, b: seq<Fact>)
    requires Known(p, a + b)
    ensures Known(p, a) && Known(p, b)
  {
  }

  lemma BodyIsOk(p: Program, live: set<RetOrArg>, plans: Plans)
    requires KeepsLive(p, live, plans)
    ensures ProgramOk(p) && Fits(p, plans) && |plans| == |p|
  {
  }

  lemma {:induction false} CalleeIsOk(p: Program, live: set<RetOrArg>, plans: Plans, g: FnId)
    requires KeepsLive(p, live, plans) && g < |p|
    ensures BodyOk(p, g, [], p[g].body) && Known(p, BodyFacts(p, g, [], p[g].body))
    ensures LocsAgree(p, live, plans, [], [], [])
    ensures MapProgram(p, plans)[g].body == MapBody(p, plans, g, [], p[g].body)
  {
    BodyFactsKnown(p, |p|, g);
  }

  lemma {:induction false} Simulates(p: Program, live: set<RetOrArg>, plans: Plans, prims: Prims, h: FnId,
                                     ctx: seq<Binder>, b: Body, ps: seq<Value>, qs: seq<Value>, ls: seq<seq<Value>>,
                                     ms: seq<seq<Value>>, fuel: nat)
    requires KeepsLive(p, live, plans) && h < |p| && BodyOk(p, h, ctx, b) && Known(p, BodyFacts(p, h, ctx, b))
    requires ParamsAgree(p, live, plans, h, ps, qs) && LocsAgree(p, live, plans, ctx, ls, ms)
    ensures OutcomesAgree(p, live, plans, h, Eval(p, prims, b, ps, ls, fuel),
                          Eval(MapProgram(p, plans), prims, MapBody(p, plans, h, ctx, b), qs, ms, fuel))
    decreases fuel, b
  {
    hide KeepsLive, ParamsAgree, ResultsAgree, LocsAgree, NewIndex, Filter, Known, Fits, ProgramOk, AllFacts,
         OperandOk, OperandsOk, MapOperand, MapOperands, MapReturned, MapOutput, MapFn, AggregateVal, OpVals,
         KeepFirst, OutputFacts, ListFacts, OperandFacts;
    BodyIsOk(p, live, plans);
    var q := MapProgram(p, plans);
    match b
    case Op(code, args, rest) =>
      KnownParts(p, ListFacts(h, ctx, args, Plain, |args|), BodyFacts(p, h, ctx + [OpB], rest));
      PlainListAgrees(p, live, plans, h, ctx, args, ps, qs, ls, ms);
      var v := [prims(code, OpVals(args, ps, ls))];
      LocsExtend(p, live, plans, ctx, ls, ms, OpB, v, v);
      Simulates(p, live, plans, prims, h, ctx + [OpB], rest, ps, qs, ls + [v], ms + [v], fuel);
    case Call(g, args, rest) =>
      if fuel > 0 {
        KnownParts(p, ListFacts(h, ctx, args, ArgsOf(g, p[g].nparams), |args|),
                   BodyFacts(p, h, ctx + [CallB(g)], rest));
        ArgumentsAgree(p, live, plans, h, ctx, g, args, ps, qs, ls, ms);
        var vs := OpVals(args, ps, ls);
        var ws := OpVals(KeepFirst(MapOperands(plans, h, ctx, args), plans[g].args), qs, ms);
        CalleeIsOk(p, live, plans, g);
        Simulates(p, live, plans, prims, g, [], p[g].body, vs, ws, [], [], fuel - 1);
        var r := Eval(p, prims, p[g].body, vs, [], fuel - 1);
        var s := Eval(q, prims, q[g].body, ws, [], fuel - 1);
        if r.Done? {
          LocsExtend(p, live, plans, ctx, ls, ms, CallB(g), r.rets, s.rets);
          Simulates(p, live, plans, prims, h, ctx + [CallB(g)], rest, ps, qs, ls + [r.rets], ms + [s.rets], fuel);
        }
      }
    case Output(v, rest) =>
      KnownParts(p, OutputFacts(h, ctx, v), BodyFacts(p, h, ctx, rest));
      OutputAgrees(p, live, plans, h, ctx, v, ps, qs, ls, ms);
      Simulates(p, live, plans, prims, h, ctx, rest, ps, qs, ls, ms, fuel);
    case If(c, thn, els) =>
      KnownParts(p, OperandFacts(h, ctx, c, OtherUse) + BodyFacts(p, h, ctx, thn), BodyFacts(p, h, ctx, els));
      KnownParts(p, OperandFacts(h, ctx, c, OtherUse), BodyFacts(p, h, ctx, thn));
      OperandAgrees(p, live, plans, h, ctx, c, OtherUse, ps, qs, ls, ms);
      Simulates(p, live, plans, prims, h, ctx, thn, ps, qs, ls, ms, fuel);
      Simulates(p, live, plans, prims, h, ctx, els, ps, qs, ls, ms, fuel);
    case Return(v) =>
      ReturnAgrees(p, live, plans, h, ctx, v, ps, qs, ls, ms);
  }

  lemma LocsSize(p: Program, live: set<RetOrArg>, plans: Plans, ctx: seq<Binder>, ls: seq<seq<Value>>,
                 ms: seq<seq<Value>>)
    requires |plans| == |p| && LocsAgree(p, live, plans, ctx, ls, ms)
    ensures |ls| == |ms| == |ctx|
  {
  }

  lemma LocsExtend(p: Program, live: set<RetOrArg>, plans: Plans, ctx: seq<Binder>, ls: seq<seq<Value>>,
                   ms: seq<seq<Value>>, b: Binder, rs: seq<Value>, ss: seq<Value>)
    requires |plans| == |p| && LocsAgree(p, live, plans, ctx, ls, ms) && SlotAgrees(p, live, plans, b, rs, ss)
    ensures LocsAgree(p, live, plans, ctx + [b], ls + [rs], ms + [ss])
  {
  }

  /** Any function of the rewritten program, given its live arguments, does what it did: the same
      output, the same failure or lack of fuel, and the same live results under their new numbers. */
  lemma {:induction false} RunsAgree(p: Program, live: set<RetOrArg>, plans: Plans, prims: Prims, h: FnId,
                                     args: seq<Value>, fuel: nat)
    requires KeepsLive(p, live, plans) && h < |p| && |args| == p[h].nparams
    ensures OutcomesAgree(p, live, plans, h, Run(p, prims, h, args, fuel),
                          Run(MapProgram(p, plans), prims, h, Filter(args, plans[h].args), fuel))
  {
    var keep := plans[h].args;
    forall i: nat | i < p[h].nparams && Arg(h, i) in live ensures SameAt(keep, args, Filter(args, keep), i) {
      assert IsValue(p, Arg(h, i)) && Kept(plans, Arg(h, i));
      FilterAt(args, keep, i);
    }
    CalleeIsOk(p, live, plans, h);
    Simulates(p, live, plans, prims, h, [], p[h].body, args, Filter(args, keep), [], [], fuel);
  }

  /** A function whose signature is fixed cannot be told from the original. */
  lemma {:induction false} PinnedRunsEqual(p: Program, live: set<RetOrArg>, plans: Plans, prims: Prims, h: FnId,
                                           args: seq<Value>, fuel: nat)
    requires KeepsLive(p, live, plans) && h < |p| && p[h].pinned && |args| == p[h].nparams
    ensures Run(MapProgram(p, plans), prims, h, args, fuel) == Run(p, prims, h, args, fuel)
  {
    RunsAgree(p, live, plans, prims, h, args, fuel);
    PinnedKeepsAll(p, live, plans, h);
    FilterAll(args, plans[h].args);
    CountAll(plans[h].rets);
    var o, q := Run(p, prims, h, args, fuel), Run(MapProgram(p, plans), prims, h, args, fuel);
    if o.Done? {
      assert |q.rets| == |o.rets|;
      forall r: nat | r < |o.rets| ensures o.rets[r] == q.rets[r] {
        assert IsValue(p, Ret(h, r)) && Intrinsic(p, Ret(h, r));
        assert SameAt(plans[h].rets, o.rets, q.rets, r);
      }
    }
  }

  lemma {:induction false} PinnedKeepsAll(p: Program, live: set<RetOrArg>, plans: Plans, h: FnId)
    requires KeepsLive(p, live, plans) && h < |p| && p[h].pinned
    ensures KeepsAll(plans[h])
  {
    forall i: nat | i < p[h].nparams ensures plans[h].args[i] {
      assert IsValue(p, Arg(h, i)) && Intrinsic(p, Arg(h, i));
      assert Kept(plans, Arg(h, i));
    }
    forall i: nat | i < p[h].nrets ensures plans[h].rets[i] {
      assert IsValue(p, Ret(h, i)) && Intrinsic(p, Ret(h, i));
      assert Kept(plans, Ret(h, i));
    }
  }
}
