/** Rewriting one function after another is rewriting all of them at once. */
module RewriteSteps {
  import opened Calls
  import opened Keep
  import opened SignatureRewrite

  function Identity(f: Fn): Plan { Plan(seq(f.nparams, i => true), seq(f.nrets, i => true)) }

  function Identities(p: Program): (plans: Plans)
    ensures Fits(p, plans) && forall f | 0 <= f < |p| :: KeepsAll(plans[f])
  {
    seq(|p|, f requires 0 <= f < |p| => Identity(p[f]))
  }

  /** Every function is rewritten by a or by b, and c is what both do. */
  ghost predicate Composes(a: Plans, b: Plans, c: Plans) {
    |a| == |b| == |c|
    && forall f | 0 <= f < |a| :: (KeepsAll(a[f]) && c[f] == b[f]) || (KeepsAll(b[f]) && c[f] == a[f])
  }

  lemma {:induction false} OperandComposes(a: Plans, b: Plans, c: Plans, h: FnId, ctx: seq<Binder>, o: Operand)
    requires Composes(a, b, c) && h < |a|
    ensures MapOperand(b, h, ctx, MapOperand(a, h, ctx, o)) == MapOperand(c, h, ctx, o)
  {
    match o
    case Param(i) => IndexComposes(a[h].args, b[h].args, c[h].args, i);
    case Loc(k, r) =>
      if k < |ctx| && ctx[k].CallB? && ctx[k].f < |a| {
        IndexComposes(a[ctx[k].f].rets, b[ctx[k].f].rets, c[ctx[k].f].rets, r);
      }
    case _ =>
  }

  lemma {:induction false} IndexComposes(a: seq<bool>, b: seq<bool>, c: seq<bool>, i: nat)
    requires (All(a) && c == b) || (All(b) && c == a)
    ensures NewIndex(c, i) == if NewIndex(a, i) < 0 then -1 else NewIndex(b, NewIndex(a, i))
  {
    if All(a) {
      CountAll(a);
    }
    if All(b) {
      CountAll(b);
    }
  }

  lemma {:induction false} OperandsCompose(a: Plans, b: Plans, c: Plans, h: FnId, ctx: seq<Binder>, ops: seq<Operand>)
    requires Composes(a, b, c) && h < |a|
    ensures MapOperands(b, h, ctx, MapOperands(a, h, ctx, ops)) == MapOperands(c, h, ctx, ops)
  {
    forall i | 0 <= i < |ops|
      ensures MapOperand(b, h, ctx, MapOperand(a, h, ctx, ops[i])) == MapOperand(c, h, ctx, ops[i])
    {
      OperandComposes(a, b, c, h, ctx, ops[i]);
    }
  }

  lemma {:induction false} MapFiltered(b: Plans, h: FnId, ctx: seq<Binder>, ops: seq<Operand>, keep: seq<bool>)
    requires h < |b| && |ops| == |keep|
    ensures MapOperands(b, h, ctx, Filter(ops, keep)) == Filter(MapOperands(b, h, ctx, ops), keep)
    decreases |ops|
  {
    if ops != [] {
      var n := |ops| - 1;
      MapFiltered(b, h, ctx, ops[..n], keep[..n]);
      assert MapOperands(b, h, ctx, ops)[..n] == MapOperands(b, h, ctx, ops[..n]);
    }
  }

  /** Filtering in two steps, one of which keeps everything. */
  lemma {:induction false} FilterComposes<T>(xs: seq<T>, a: seq<bool>, b: seq<bool>, c: seq<bool>)
    requires |xs| == |a| == |c| && |b| == Count(a)
    requires (All(a) && c == b) || (All(b) && c == a)
    ensures Filter(Filter(xs, a), b) == Filter(xs, c)
  {
    if All(b) {
      FilterAll(Filter(xs, a), b);
      if All(a) {
        FilterAll(xs, a);
      }
    } else {
      FilterAll(xs, a);
    }
  }

  lemma {:induction false} PartsCompose(a: Plans, b: Plans, c: Plans, h: FnId, ctx: seq<Binder>, ops: seq<Operand>,
                                        ka: seq<bool>, kb: seq<bool>, kc: seq<bool>)
    requires Composes(a, b, c) && h < |a|
    requires |ops| == |ka| == |kc| && |kb| == Count(ka) && ((All(ka) && kc == kb) || (All(kb) && kc == ka))
    ensures Filter(MapOperands(b, h, ctx, Filter(MapOperands(a, h, ctx, ops), ka)), kb)
         == Filter(MapOperands(c, h, ctx, ops), kc)
  {
    MapFiltered(b, h, ctx, MapOperands(a, h, ctx, ops), ka);
    OperandsCompose(a, b, c, h, ctx, ops);
    FilterComposes(MapOperands(c, h, ctx, ops), ka, kb, kc);
  }

  lemma {:induction false} ArgumentsCompose(a: Plans, b: Plans, c: Plans, h: FnId, ctx: seq<Binder>,
                                            ops: seq<Operand>, ka: seq<bool>, kb: seq<bool>, kc: seq<bool>)
    requires Composes(a, b, c) && h < |a|
    requires |ka| == |kc| <= |ops| && |kb| == Count(ka) && ((All(ka) && kc == kb) || (All(kb) && kc == ka))
    ensures KeepFirst(MapOperands(b, h, ctx, KeepFirst(MapOperands(a, h, ctx, ops), ka)), kb)
         == KeepFirst(MapOperands(c, h, ctx, ops), kc)
  {
    hide Filter, MapOperand, All, KeepsAll;
    var n, m := |ka|, |kb|;
    var first := MapOperands(a, h, ctx, ops);
    var second := MapOperands(b, h, ctx, KeepFirst(first, ka));
    assert first[..n] == MapOperands(a, h, ctx, ops[..n]);
    assert second[..m] == MapOperands(b, h, ctx, Filter(first[..n], ka));
    assert MapOperands(c, h, ctx, ops)[..n] == MapOperands(c, h, ctx, ops[..n]);
    PartsCompose(a, b, c, h, ctx, ops[..n], ka, kb, kc);
    OperandsCompose(a, b, c, h, ctx, ops);
    assert second[m..] == MapOperands(c, h, ctx, ops)[n..];
  }

  lemma {:induction false} ReturnedComposes(a: Plans, b: Plans, c: Plans, h: FnId, ctx: seq<Binder>, k: nat)
    requires Composes(a, b, c) && h < |a|
    requires k < |ctx| && ctx[k].CallB? && ctx[k].f < |a|
    requires var g := ctx[k].f;
             |a[g].rets| == |a[h].rets| == |c[h].rets| == |c[g].rets| && |b[h].rets| == Count(a[h].rets)
               && |b[g].rets| == Count(a[g].rets)
    requires MapReturned(a, h, ctx, Whole(k)).Whole? ==> |b[ctx[k].f].rets| == |b[h].rets|
    ensures MapReturned(b, h, ctx, MapReturned(a, h, ctx, Whole(k))) == MapReturned(c, h, ctx, Whole(k))
  {
    var g := ctx[k].f;
    if All(a[g].rets) && All(a[h].rets) {
      CountAll(a[g].rets);
      CountAll(a[h].rets);
      IdentityComposes(a[g].rets, b[g].rets, c[g].rets);
      IdentityComposes(a[h].rets, b[h].rets, c[h].rets);
      var ops := Components(k, |c[h].rets|);
      assert MapOperands(b, h, ctx, ops) == MapOperands(c, h, ctx, ops);
    } else {
      PartsCompose(a, b, c, h, ctx, Components(k, |a[h].rets|), a[h].rets, b[h].rets, c[h].rets);
    }
  }

  lemma {:induction false} OutputComposes(a: Plans, b: Plans, c: Plans, h: FnId, ctx: seq<Binder>, v: Aggregate)
    requires Composes(a, b, c) && h < |a|
    requires v.Whole? ==> v.k < |ctx| && ctx[v.k].CallB? && ctx[v.k].f < |a|
    requires v.Whole? ==> var g := ctx[v.k].f; |a[g].rets| == |c[g].rets| && |b[g].rets| == Count(a[g].rets)
    ensures MapOutput(b, h, ctx, MapOutput(a, h, ctx, v)) == MapOutput(c, h, ctx, v)
  {
    match v
    case Parts(ops) => OperandsCompose(a, b, c, h, ctx, ops);
    case Whole(k) =>
      var g := ctx[k].f;
      var ops := Components(k, |a[g].rets|);
      if All(a[g].rets) {
        CountAll(a[g].rets);
        IdentityComposes(a[g].rets, b[g].rets, c[g].rets);
        assert MapOperands(b, h, ctx, ops) == MapOperands(c, h, ctx, ops);
      } else {
        OperandsCompose(a, b, c, h, ctx, ops);
      }
  }

  lemma {:induction false} IdentityComposes(a: seq<bool>, b: seq<bool>, c: seq<bool>)
    requires All(a) && |b| == Count(a) && (c == b || (All(b) && c == a))
    ensures c == b
  {
    CountAll(a);
  }

  lemma {:induction false} BodyComposes(p: Program, q: Program, a: Plans, b: Plans, c: Plans, h: FnId,
                                        ctx: seq<Binder>, body: Body)
    requires Fits(p, a) && Fits(p, c) && Fits(q, b) && SameShape(p, a, q) && Composes(a, b, c)
    requires h < |p| && BodyOk(p, h, ctx, body) && BodyOk(q, h, ctx, MapBody(p, a, h, ctx, body))
    ensures MapBody(q, b, h, ctx, MapBody(p, a, h, ctx, body)) == MapBody(p, c, h, ctx, body)
    decreases body
  {
    hide MapOperands, MapOperand, OperandsOk, OperandOk, KeepFirst, Filter, NewIndex, All;
    match body
    case Op(_, args, rest) =>
      OperandsCompose(a, b, c, h, ctx, args);
      BodyComposes(p, q, a, b, c, h, ctx + [OpB], rest);
    case Call(g, args, rest) =>
      ArgumentsCompose(a, b, c, h, ctx, args, a[g].args, b[g].args, c[g].args);
      BodyComposes(p, q, a, b, c, h, ctx + [CallB(g)], rest);
    case Output(v, rest) =>
      OutputComposes(a, b, c, h, ctx, v);
      BodyComposes(p, q, a, b, c, h, ctx, rest);
    case If(o, thn, els) =>
      OperandComposes(a, b, c, h, ctx, o);
      BodyComposes(p, q, a, b, c, h, ctx, thn);
      BodyComposes(p, q, a, b, c, h, ctx, els);
    case Return(Parts(ops)) =>
      PartsCompose(a, b, c, h, ctx, ops, a[h].rets, b[h].rets, c[h].rets);
    case Return(Whole(k)) =>
      ReturnedComposes(a, b, c, h, ctx, k);
  }

  lemma {:induction false} ReturnedAttributeComposes(s: set<nat>, a: seq<bool>, b: seq<bool>, c: seq<bool>)
    requires (All(a) && c == b) || (All(b) && c == a)
    ensures var t := set i | i in s && NewIndex(a, i) >= 0 :: NewIndex(a, i) as nat;
            (set j | j in t && NewIndex(b, j) >= 0 :: NewIndex(b, j) as nat)
            == set i | i in s && NewIndex(c, i) >= 0 :: NewIndex(c, i) as nat
  {
    var t := set i | i in s && NewIndex(a, i) >= 0 :: NewIndex(a, i) as nat;
    forall i | i in s ensures NewIndex(c, i) == if NewIndex(a, i) < 0 then -1 else NewIndex(b, NewIndex(a, i)) {
      IndexComposes(a, b, c, i);
    }
    forall i | i in s && NewIndex(c, i) >= 0
      ensures NewIndex(c, i) in set j | j in t && NewIndex(b, j) >= 0 :: NewIndex(b, j) as nat
    {
      var j := NewIndex(a, i) as nat;
      assert j in t;
    }
  }

  /** Two rounds of rewriting that touch different functions are one round. */
  lemma {:induction false} ProgramComposes(p: Program, a: Plans, b: Plans, c: Plans)
    requires ProgramOk(p) && Fits(p, a) && Fits(p, c) && Composes(a, b, c)
    requires Fits(MapProgram(p, a), b)
    ensures ProgramOk(MapProgram(p, a))
    ensures MapProgram(MapProgram(p, a), b) == MapProgram(p, c)
  {
    MappedProgramOk(p, a);
    var q := MapProgram(p, a);
    forall h: FnId | h < |p| ensures MapFn(q, b, h) == MapFn(p, c, h) {
      BodyComposes(p, q, a, b, c, h, [], p[h].body);
      ReturnedAttributeComposes(p[h].returned, a[h].args, b[h].args, c[h].args);
      CountComposes(a[h].args, b[h].args, c[h].args);
      CountComposes(a[h].rets, b[h].rets, c[h].rets);
    }
  }

  lemma {:induction false} CountComposes(a: seq<bool>, b: seq<bool>, c: seq<bool>)
    requires |c| == |a| && |b| == Count(a) && ((All(a) && c == b) || (All(b) && c == a))
    ensures Count(b) == Count(c)
  {
    if All(b) {
      CountAll(b);
      if All(a) {
        CountAll(a);
      }
    }
  }

  // ----- dropping nothing -----

  lemma {:induction false} IdleOperands(plans: Plans, h: FnId, ctx: seq<Binder>, ops: seq<Operand>)
    requires h < |plans| && forall f | 0 <= f < |plans| :: KeepsAll(plans[f])
    ensures MapOperands(plans, h, ctx, ops) == ops
  {
    forall i | 0 <= i < |ops| ensures MapOperand(plans, h, ctx, ops[i]) == ops[i] {
      CountAll(plans[h].args);
      match ops[i]
      case Loc(k, r) =>
        if k < |ctx| && ctx[k].CallB? && ctx[k].f < |plans| {
          CountAll(plans[ctx[k].f].rets);
        }
      case _ =>
    }
  }

  lemma {:induction false} IdleBody(p: Program, plans: Plans, h: FnId, ctx: seq<Binder>, b: Body)
    requires Fits(p, plans) && (forall f | 0 <= f < |plans| :: KeepsAll(plans[f])) && h < |p| && BodyOk(p, h, ctx, b)
    ensures MapBody(p, plans, h, ctx, b) == b
    decreases b
  {
    match b
    case Op(_, args, rest) =>
      IdleOperands(plans, h, ctx, args);
      IdleBody(p, plans, h, ctx + [OpB], rest);
    case Call(g, args, rest) =>
      IdleOperands(plans, h, ctx, args);
      FilterAll(args[..p[g].nparams], plans[g].args);
      IdleBody(p, plans, h, ctx + [CallB(g)], rest);
    case Output(v, rest) =>
      if v.Parts? {
        IdleOperands(plans, h, ctx, v.ops);
      }
      IdleBody(p, plans, h, ctx, rest);
    case If(c, thn, els) =>
      IdleOperands(plans, h, ctx, [c]);
      assert MapOperands(plans, h, ctx, [c])[0] == c;
      IdleBody(p, plans, h, ctx, thn);
      IdleBody(p, plans, h, ctx, els);
    case Return(Parts(ops)) =>
      IdleOperands(plans, h, ctx, ops);
      FilterAll(ops, plans[h].rets);
    case Return(Whole(k)) =>
  }

  /** Plans that keep everything change nothing. */
  lemma {:induction false} NothingToDo(p: Program, plans: Plans)
    requires ProgramOk(p) && Fits(p, plans) && forall f | 0 <= f < |plans| :: KeepsAll(plans[f])
    ensures MapProgram(p, plans) == p
  {
    forall h: FnId | h < |p| ensures MapFn(p, plans, h) == p[h] {
      IdleBody(p, plans, h, [], p[h].body);
      CountAll(plans[h].args);
      CountAll(plans[h].rets);
    }
  }
}
