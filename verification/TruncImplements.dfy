/** Whole programs: when the program after a reduction may run in place of the one before it. */
module TruncImplements {
  import opened Bits
  import opened Ir
  import opened Narrowing
  import opened TruncDag
  import opened TruncRewrite

  /** The run executes nothing that traps. */
  ghost predicate UBFree(w: World, p: Program, v: Valuation) {
    forall id | id in p && w.Executed(id) :: id in v && !v[id].UB?
  }

  predicate IsDivide(ins: Instr) { ins.Bin? && IsDivision(ins.bop) }

  // ----- the dag at its new width, read off the old program -----

  /** Nothing but constants goes into the instruction, so the builder folds it. */
  predicate Folds(p: Program, rank: map<Id, nat>, I: Id)
    requires WellTyped(p) && Ranked(p, rank) && I in p
    decreases rank[I] + 1, 0
  {
    match p[I]
    case Cast(_, src, _) => src.Const?
    case Bin(_, _, a, b, _) => FoldsValue(p, rank, a) && FoldsValue(p, rank, b)
    case Select(c, a, b, _) => c.Const? && FoldsValue(p, rank, a) && FoldsValue(p, rank, b)
    case Opaque(_, _) => false
  }

  predicate FoldsValue(p: Program, rank: map<Id, nat>, v: Value)
    requires WellTyped(p) && Ranked(p, rank) && ValueOk(p, v)
    decreases if v.Ref? then rank[v.id] + 1 else 0, 1
  {
    v.Const? || Folds(p, rank, v.id)
  }

  /** The value of a node computed at width m from the values around the dag. */
  function NarrowVal(p: Program, rank: map<Id, nat>, val: Valuation, m: nat, I: Id): Val
    requires WellTyped(p) && Ranked(p, rank) && I in p && m >= 1
    decreases rank[I] + 1, 0
  {
    match p[I]
    case Cast(op, src, _) =>
      var from := WidthOf(p, src);
      if from == m then OpVal(val, src) else EvalCast(RecastOp(op, from, m), from, m, OpVal(val, src))
    case Bin(op, f, a, b, _) =>
      BuiltVal(Folds(p, rank, I), op, Flags(false, false, f.exact), m, NarrowOperand(p, rank, val, m, a),
               NarrowOperand(p, rank, val, m, b))
    case Select(c, a, b, _) =>
      EvalSelect(OpVal(val, c), NarrowOperand(p, rank, val, m, a), NarrowOperand(p, rank, val, m, b))
    case Opaque(_, _) => OpVal(val, Ref(I))
  }

  function NarrowOperand(p: Program, rank: map<Id, nat>, val: Valuation, m: nat, v: Value): Val
    requires WellTyped(p) && Ranked(p, rank) && ValueOk(p, v) && m >= 1
    decreases if v.Ref? then rank[v.id] + 1 else 0, 1
  {
    match v
    case Const(_, x) => TruncVal(x, m)
    case Ref(id) => NarrowVal(p, rank, val, m, id)
  }

  /** If the node is a division that is not folded, its divisor computed at width m is a number other
      than zero. */
  predicate DivisorOk(p: Program, rank: map<Id, nat>, val: Valuation, m: nat, I: Id)
    requires WellTyped(p) && Ranked(p, rank) && I in p && m >= 1
  {
    IsDivide(p[I]) && !Folds(p, rank, I) ==>
      var y := NarrowOperand(p, rank, val, m, p[I].b);
      y.Int? && y.n != 0
  }

  ghost predicate ExecutedOk(w: World, p: Program, rank: map<Id, nat>, val: Valuation, keys: seq<Id>, m: nat)
    requires WellTyped(p) && Ranked(p, rank) && m >= 1
  {
    forall I | I in keys && I in p && w.Executed(I) :: DivisorOk(p, rank, val, m, I)
  }

  /** In every run that does not trap and does not reach the trunc, the divisions of the dag that are
      executed have divisors that stay above zero at width m. */
  ghost predicate DivisorsOk(home: Id -> nat, p: Program, rank: map<Id, nat>, t: Id, keys: seq<Id>, m: nat)
    requires WellTyped(p) && Ranked(p, rank) && m >= 1
  {
    forall w: World, val | w.home == home && w.Runs(p, val) && UBFree(w, p, val) && !w.Executed(t) ::
      ExecutedOk(w, p, rank, val, keys, m)
  }

  /** Every division of the dag is executed together with the trunc. */
  ghost predicate DividesAtTrunc(home: Id -> nat, p: Program, t: Id, keys: seq<Id>) {
    forall I | I in keys && I in p && IsDivide(p[I]) :: home(I) == home(t)
  }

  lemma DividesAtTruncIsOk(home: Id -> nat, p: Program, rank: map<Id, nat>, t: Id, keys: seq<Id>, m: nat)
    requires WellTyped(p) && Ranked(p, rank) && m >= 1 && DividesAtTrunc(home, p, t, keys)
    ensures DivisorsOk(home, p, rank, t, keys, m)
  {
    hide WellTyped, Ranked, World.Runs, UBFree, Folds, NarrowOperand;
  }

  /** Off the trunc's path, survivors keep their values. */
  lemma {:induction false} SurvivorSame(x: Run, id: Id)
    requires x.Ok() && x.env == x.w.env && !x.w.Executed(x.t)
    requires id in x.p0 && id in x.p && id in x.rank && x.w.Executed(id)
    ensures id in x.v0 && id in x.v && x.v[id] == x.v0[id]
    decreases x.rank[id]
  {
    hide Run.Ok, Run.Facts;
    SurvivorSteps(x, id);
    if !x.p0[id].Opaque? {
      forall o | o in Operands(x.p0[id])
        ensures Replaced(o, x.t, x.res) == o && WidthOf(x.p, o) == WidthOf(x.p0, o)
        ensures OpVal(x.v, o) == OpVal(x.v0, o)
      {
        OperandExecuted(x, id, o);
        if o.Ref? {
          OperandSurvives(x, id, o);
          SurvivorRank(x, id, o);
          SourceInRange(x, o.id);
          SurvivorSame(x, o.id);
        }
      }
    }
    StepSame(x, id);
  }

  lemma SurvivorRank(x: Run, id: Id, o: Value)
    requires x.Ok() && id in x.p0 && id in x.rank && o in Operands(x.p0[id]) && o.Ref?
    ensures o.id in x.rank && x.rank[o.id] < x.rank[id]
  {
    hide Run.Facts, Reducible, Rewritten, Model;
  }

  lemma StepSame(x: Run, id: Id)
    requires WellTyped(x.p0) && WellTyped(x.p) && id in x.p0 && id in x.p
    requires x.p[id] == ReplacedIn(x.p0[id], x.t, x.res)
    requires forall o | o in Operands(x.p0[id]) ::
               Replaced(o, x.t, x.res) == o && WidthOf(x.p, o) == WidthOf(x.p0, o) && OpVal(x.v, o) == OpVal(x.v0, o)
    ensures Step(x.p, x.p[id], id, x.v, x.env) == Step(x.p0, x.p0[id], id, x.v0, x.env)
  {
    hide Replaced, OpVal, EvalBin, EvalCast, EvalSelect, WellTyped, WidthOf;
    TypedAt(x.p0, id);
    TypedAt(x.p, id);
    var ops := Operands(x.p0[id]);
    match x.p0[id]
    case Cast(_, src, _) => assert src in ops;
    case Bin(_, _, a, b, _) => assert a in ops && b in ops;
    case Select(c, a, b, _) => assert c in ops && a in ops && b in ops;
    case Opaque(_, _) =>
  }

  lemma OutsideSame(x: Run, I: Id, v: Value)
    requires x.Ok() && x.env == x.w.env && !x.w.Executed(x.t) && I in x.keys && I in x.p0 && x.w.Executed(I)
    requires (x.p0[I].Cast? && v == x.p0[I].src) || (x.p0[I].Select? && v == x.p0[I].cond)
    ensures OpVal(x.v, v) == OpVal(x.v0, v) && WidthOf(x.p, v) == WidthOf(x.p0, v)
  {
    hide Run.Ok, Run.Facts;
    OperandExecuted(x, I, v);
    if v.Ref? {
      OutsideDag(x, I, v);
      SourceInRange(x, v.id);
      SurvivorSame(x, v.id);
    }
  }

  lemma {:induction false} OperandEvaluates(x: Run, I: Id, v: Value)
    requires x.Ok() && x.env == x.w.env && !x.w.Executed(x.t) && x.m >= 1
    requires I in x.keys && I in x.rank && I in x.p0 && x.w.Executed(I) && v in Relevant(x.p0[I])
    ensures ValueOk(x.p0, v)
    ensures OpVal(x.v, ReducedOperand(x.nv, v, x.m)) == NarrowOperand(x.p0, x.rank, x.v0, x.m, v)
    ensures ReducedOperand(x.nv, v, x.m).Const? <==> FoldsValue(x.p0, x.rank, v)
    decreases x.rank[I], 0
  {
    hide Run.Ok, Run.Facts, NarrowVal, Folds;
    NodeOperand(x, I, v);
    OperandExecuted(x, I, v);
    if v.Ref? { NodeEvaluates(x, v.id); }
  }

  /** Off the trunc's path, a rebuilt node holds what the old program yields at width m, and is folded
      exactly if only constants go into it. */
  lemma {:induction false} NodeEvaluates(x: Run, I: Id)
    requires x.Ok() && x.env == x.w.env && !x.w.Executed(x.t) && x.m >= 1
    requires I in x.keys && I in x.rank && x.w.Executed(I)
    ensures I in x.p0 && I in x.nv && OpVal(x.v, x.nv[I]) == NarrowVal(x.p0, x.rank, x.v0, x.m, I)
    ensures x.nv[I].Const? <==> Folds(x.p0, x.rank, I)
    decreases x.rank[I], 1
  {
    hide Run.Ok, Run.Facts, Built;
    NodeIs(x, I);
    match x.p0[I]
    case Cast(op, src, _) =>
      CastFacts(x, I);
      OutsideSame(x, I, src);
      if WidthOf(x.p0, src) != x.m {
        RebuiltCast(x, x.nv[I], RecastOp(op, WidthOf(x.p0, src), x.m), src, x.m);
      }
    case Bin(op, f, a, b, _) =>
      OperandEvaluates(x, I, a);
      OperandEvaluates(x, I, b);
      RebuiltBin(x, x.nv[I], op, Flags(false, false, f.exact), ReducedOperand(x.nv, a, x.m),
                 ReducedOperand(x.nv, b, x.m), x.m);
    case Select(c, a, b, _) =>
      OutsideSame(x, I, c);
      OperandEvaluates(x, I, a);
      OperandEvaluates(x, I, b);
      RebuiltSelect(x, x.nv[I], c, ReducedOperand(x.nv, a, x.m), ReducedOperand(x.nv, b, x.m), x.m);
    case Opaque(_, _) => assert false;
  }

  lemma NodeIs(x: Run, I: Id)
    requires x.Ok() && I in x.keys
    ensures I in x.p0 && I in x.nv && !x.p0[I].Opaque? && x.m >= 1 && WellTyped(x.p0) && Ranked(x.p0, x.rank)
    ensures !(x.p0[I].Cast? && WidthOf(x.p0, x.p0[I].src) == x.m) ==>
              Built(x.p, x.nv[I], LoweredInstr(x.p0, x.nv, x.m, x.p0[I]))
              && (x.nv[I].Const? <==> AllConst(LoweredInstr(x.p0, x.nv, x.m, x.p0[I])))
  {
    hide Run.Facts, Ranked, Model, SideConditions;
    assert InstrOk(x.p0, x.p0[I]) && Lowered(x.p0, x.p, x.nv, x.m, I);
    NodeWidth(x, I);
  }

  // ----- no new undefined behaviour -----

  lemma OldOperandNotUB(x: Run, I: Id, v: Value)
    requires x.Ok() && UBFree(x.w, x.p0, x.v0) && I in x.p0 && x.w.Executed(I) && v in Operands(x.p0[I])
    ensures ValueOk(x.p0, v) && !OpVal(x.v0, v).UB?
  {
    hide Run.Facts, Rewritten, Reducible, Model;
    OperandExecuted(x, I, v);
    assert InstrOk(x.p0, x.p0[I]);
  }

  lemma {:induction false} NarrowOperandNotUB(x: Run, I: Id, v: Value)
    requires x.Ok() && x.m >= 1 && UBFree(x.w, x.p0, x.v0)
    requires ExecutedOk(x.w, x.p0, x.rank, x.v0, x.keys, x.m)
    requires I in x.keys && I in x.rank && I in x.p0 && x.w.Executed(I) && v in Relevant(x.p0[I])
    ensures ValueOk(x.p0, v) && !NarrowOperand(x.p0, x.rank, x.v0, x.m, v).UB?
    decreases x.rank[I], 0
  {
    hide Run.Ok, Run.Facts, NarrowVal, ExecutedOk, UBFree;
    NodeOperand(x, I, v);
    OldOperandNotUB(x, I, v);
    OperandExecuted(x, I, v);
    if v.Ref? { NarrowNotUB(x, v.id); }
  }

  lemma BuiltNotUB(folded: bool, op: BinOp, f: Flags, m: nat, x: Val, y: Val)
    requires m >= 1 && !x.UB? && !y.UB? && (IsDivision(op) && !folded ==> y.Int? && y.n != 0)
    ensures !BuiltVal(folded, op, f, m, x, y).UB?
  {
  }

  lemma DivisorHere(x: Run, I: Id)
    requires WellTyped(x.p0) && Ranked(x.p0, x.rank) && x.m >= 1
    requires ExecutedOk(x.w, x.p0, x.rank, x.v0, x.keys, x.m) && I in x.keys && I in x.p0 && x.w.Executed(I)
    ensures DivisorOk(x.p0, x.rank, x.v0, x.m, I)
  {
  }

  /** Where the old run does not trap and the divisors are fine, the dag does not trap at width m. */
  lemma {:induction false} NarrowNotUB(x: Run, I: Id)
    requires x.Ok() && x.m >= 1 && UBFree(x.w, x.p0, x.v0)
    requires ExecutedOk(x.w, x.p0, x.rank, x.v0, x.keys, x.m)
    requires I in x.keys && I in x.rank && I in x.p0 && x.w.Executed(I)
    ensures !NarrowVal(x.p0, x.rank, x.v0, x.m, I).UB?
    decreases x.rank[I], 1
  {
    hide Run.Ok, Run.Facts, UBFree, Folds, NarrowOperand, OpVal, ExecutedOk, BuiltVal, Built, AllConst, LoweredInstr;
    NodeIs(x, I);
    match x.p0[I]
    case Cast(op, src, _) =>
      OldOperandNotUB(x, I, src);
    case Bin(op, f, a, b, _) =>
      NarrowOperandNotUB(x, I, a);
      NarrowOperandNotUB(x, I, b);
      DivisorHere(x, I);
      BuiltNotUB(Folds(x.p0, x.rank, I), op, Flags(false, false, f.exact), x.m,
                 NarrowOperand(x.p0, x.rank, x.v0, x.m, a), NarrowOperand(x.p0, x.rank, x.v0, x.m, b));
    case Select(c, a, b, _) =>
      OldOperandNotUB(x, I, c);
      NarrowOperandNotUB(x, I, a);
      NarrowOperandNotUB(x, I, b);
    case Opaque(_, _) => assert false;
  }

  /** Where the trunc is not reached the analyses may be wrong, and the rebuilt node with them; but
      it does not trap. */
  lemma UncheckedNotUB(x: Run, I: Id)
    requires x.Ok() && x.env == x.w.env && !x.w.Executed(x.t) && x.m >= 1
    requires UBFree(x.w, x.p0, x.v0) && ExecutedOk(x.w, x.p0, x.rank, x.v0, x.keys, x.m)
    requires I in x.keys && x.w.Executed(I)
    ensures I in x.nv && !OpVal(x.v, x.nv[I]).UB?
  {
    hide Run.Ok, Run.Facts, UBFree, NarrowVal, ExecutedOk, OpVal;
    NodeIs(x, I);
    RankOf(x, I);
    NodeEvaluates(x, I);
    NarrowNotUB(x, I);
  }

  lemma RankOf(x: Run, id: Id)
    requires x.Ok() && id in x.p0
    ensures id in x.rank
  {
  }

  /** Either the analyses are right, or what they may get wrong does not trap. */
  ghost predicate Trustworthy(x: Run)
    requires WellTyped(x.p0) && Ranked(x.p0, x.rank)
  {
    x.Facts()
    || (x.env == x.w.env && !x.w.Executed(x.t) && x.m >= 1
        && ExecutedOk(x.w, x.p0, x.rank, x.v0, x.keys, x.m))
  }

  lemma NodeNotUB(x: Run, I: Id)
    requires x.Ok() && UBFree(x.w, x.p0, x.v0) && Trustworthy(x)
    requires I in x.keys && x.w.Executed(I)
    ensures I in x.nv && !OpVal(x.v, x.nv[I]).UB?
  {
    hide Run.Ok, Run.Facts, ExecutedOk, OpVal;
    NodeIs(x, I);
    RankOf(x, I);
    if x.Facts() {
      NodeReduces(x, I);
    } else {
      UncheckedNotUB(x, I);
    }
  }

  /** If the old program runs without trapping, so does the new one. */
  lemma NoNewUB(x: Run)
    requires x.Ok() && Added(x.w.home, x.p0, x.p, x.t, x.keys, x.nv, x.res, x.m)
    requires UBFree(x.w, x.p0, x.v0) && Trustworthy(x)
    ensures UBFree(x.w, x.p, x.v)
  {
    hide Run.Ok, Run.Facts, Added, Ranked, Trustworthy, Made, OnlyMade, Inserted;
    forall id | id in x.p && x.w.Executed(id) ensures id in x.v && !x.v[id].UB? {
      if id in x.p0 { OldNotUB(x, id); } else { NewNotUB(x, id); }
    }
  }

  lemma OldNotUB(x: Run, id: Id)
    requires x.Ok() && UBFree(x.w, x.p0, x.v0) && id in x.p0 && id in x.p && x.w.Executed(id)
    ensures id in x.v && !x.v[id].UB?
  {
    hide Run.Ok, Run.Facts;
    RankOf(x, id);
    SurvivorRefines(x, id);
  }

  lemma NewNotUB(x: Run, id: Id)
    requires x.Ok() && Added(x.w.home, x.p0, x.p, x.t, x.keys, x.nv, x.res, x.m)
    requires UBFree(x.w, x.p0, x.v0) && Trustworthy(x)
    requires id in x.p && id !in x.p0 && x.w.Executed(id)
    ensures id in x.v && !x.v[id].UB?
  {
    hide Run.Ok, Run.Facts, Trustworthy, Added;
    NewInstr(x, id);
    assert id in x.v by { ModelThere(x, id); }
    if Made(x.nv, id) {
      var I :| I in x.nv && x.nv[I] == Ref(id);
      NewNode(x, I);
      NodeNotUB(x, I);
    } else {
      RootFacts(x);
      RootRefines(x);
    }
  }

  lemma ModelThere(x: Run, id: Id)
    requires x.Ok() && id in x.p
    ensures id in x.v
  {
  }

  // ----- whole programs -----

  /** The opaque instructions are the same ones, and each of their operands that was computed still
      is, and has been refined. */
  ghost predicate SameObservers(w: World, p0: Program, v0: Valuation, p: Program, v: Valuation) {
    (forall id | id in p && p[id].Opaque? :: id in p0 && p0[id].Opaque?)
    && forall id | id in p0 && p0[id].Opaque? ::
         id in p && p[id].Opaque? && p[id].width == p0[id].width && |p[id].ops| == |p0[id].ops|
         && forall i | 0 <= i < |p0[id].ops| && w.Available(p0[id].ops[i]) ::
              w.Available(p[id].ops[i]) && Refines(OpVal(v0, p0[id].ops[i]), OpVal(v, p[id].ops[i]))
  }

  /** One run of p in place of the same run of p0. */
  ghost predicate Preserves(w: World, p0: Program, v0: Valuation, p: Program, v: Valuation) {
    SameObservers(w, p0, v0, p, v) && w.Dominated(p) && (UBFree(w, p0, v0) ==> UBFree(w, p, v))
  }

  /** When the analyses' answers can be relied on. */
  datatype Trust = AtUses | AtContext

  ghost predicate Sound(o: Oracle, trust: Trust, w: World) {
    if trust.AtUses? then SoundAtUses(o, w) else SoundAtContext(o, w)
  }

  /** p may run in place of p0: it traps only if p0 does, has the same opaque instructions, and feeds
      them refinements of what p0 fed them, provided what these yield is refined in turn. */
  ghost predicate Implements(o: Oracle, trust: Trust, home: Id -> nat, p0: Program, p: Program)
    requires WellTyped(p)
  {
    forall w: World, env, v0, v |
      w.home == home && Sound(o, trust, w) && w.Runs(p0, v0) && Improves(w.env, env) && Model(p, env, v) ::
      Preserves(w, p0, v0, p, v)
  }

  lemma ReductionObserved(x: Run)
    requires x.Ok() && Added(x.w.home, x.p0, x.p, x.t, x.keys, x.nv, x.res, x.m)
    ensures SameObservers(x.w, x.p0, x.v0, x.p, x.v)
  {
    hide Run.Ok, Run.Facts, Added, OpVal;
    forall id | id in x.p && x.p[id].Opaque? ensures id in x.p0 && x.p0[id].Opaque? {
      OpaqueIsOld(x, id);
    }
    forall id | id in x.p0 && x.p0[id].Opaque?
      ensures id in x.p && x.p[id] == ReplacedIn(x.p0[id], x.t, x.res)
    {
      OldStays(x, id);
    }
    forall id, i | id in x.p0 && x.p0[id].Opaque? && 0 <= i < |x.p0[id].ops| && x.w.Available(x.p0[id].ops[i])
      ensures x.w.Available(x.p[id].ops[i])
      ensures Refines(OpVal(x.v0, x.p0[id].ops[i]), OpVal(x.v, x.p[id].ops[i]))
    {
      ObserverOperand(x, id, i);
    }
  }

  lemma OpaqueIsOld(x: Run, id: Id)
    requires x.Ok() && Added(x.w.home, x.p0, x.p, x.t, x.keys, x.nv, x.res, x.m)
    requires id in x.p && x.p[id].Opaque?
    ensures id in x.p0 && x.p0[id].Opaque?
  {
    hide Run.Ok, Run.Facts, Added;
    if id in x.p0 {
      OldStays(x, id);
    } else {
      NewInstr(x, id);
      if Made(x.nv, id) {
        var I :| I in x.nv && x.nv[I] == Ref(id);
        NewNode(x, I);
      }
    }
  }

  lemma ObserverOperand(x: Run, id: Id, i: nat)
    requires x.Ok() && Added(x.w.home, x.p0, x.p, x.t, x.keys, x.nv, x.res, x.m)
    requires id in x.p0 && id in x.p && x.p0[id].Opaque? && i < |x.p0[id].ops| && x.w.Available(x.p0[id].ops[i])
    ensures x.p[id].Opaque? && i < |x.p[id].ops| && x.w.Available(x.p[id].ops[i])
    ensures Refines(OpVal(x.v0, x.p0[id].ops[i]), OpVal(x.v, x.p[id].ops[i]))
  {
    hide Run.Facts, Model, Lowered, Built, Reducible, Added;
    var o := x.p0[id].ops[i];
    assert x.p[id].ops[i] == Replaced(o, x.t, x.res);
    if o == Ref(x.t) {
      RootRefines(x);
      ResultAvailable(x);
      assert x.t in x.v0 by { RootFacts(x); }
    } else if o.Ref? {
      assert InstrOk(x.p0, x.p0[id]) && InstrOk(x.p, x.p[id]);
      assert o in x.p0[id].ops && o in x.p[id].ops;
      SourceInRange(x, o.id);
      RankOf(x, o.id);
      SurvivorRefines(x, o.id);
    }
  }

  /** Answers right at the uses, or right where the trunc is reached, are right for the dag. */
  lemma TrustedFacts(x: Run, trust: Trust)
    requires Sound(x.o, trust, x.w) && x.w.Runs(x.p0, x.v0) && Reducible(x.o, x.p0, x.t, x.keys, x.m)
    ensures trust.AtUses? || x.w.Executed(x.t) ==> x.Facts()
  {
    hide BoundOk, Model, WellTyped, Acyclic, Reducible;
    if trust.AtUses? || x.w.Executed(x.t) {
      forall I | I in x.keys && I in x.p0 && x.w.Executed(I) ensures x.FactsFor(I) {
        forall v | v in Operands(x.p0[I]) ensures BoundOk(x.o, x.p0, x.t, x.v0, v) {
          assert x.t in x.p0 by { TruncThere(x); }
          assert x.w.Available(v);
        }
      }
    }
  }

  lemma TruncThere(x: Run)
    requires Reducible(x.o, x.p0, x.t, x.keys, x.m)
    ensures x.t in x.p0
  {
  }

  // ----- better inputs, better values -----

  /** In one program, refined inputs give refined values. */
  lemma {:induction false} ModelMonotone(p: Program, rank: map<Id, nat>, env: Valuation, env': Valuation, v: Valuation,
                                         v': Valuation, id: Id)
    requires WellTyped(p) && Ranked(p, rank) && Model(p, env, v) && Model(p, env', v') && Improves(env, env')
    requires id in p
    ensures id in v && id in v' && Refines(v[id], v'[id])
    decreases rank[id]
  {
    hide Improves, Refines, Step;
    TypedAt(p, id);
    forall o | o in Operands(p[id]) ensures Refines(OpVal(v, o), OpVal(v', o)) {
      OperandOk(p, p[id], o);
      RefinesSelf();
      if o.Ref? { ModelMonotone(p, rank, env, env', v, v', o.id); }
    }
    SameStepMonotone(p, p[id], id, v, v', env, env');
  }

  lemma SameStepMonotone(p: Program, ins: Instr, id: Id, v: Valuation, v': Valuation, env: Valuation, env': Valuation)
    requires InstrOk(p, ins) && Improves(env, env')
    requires forall o | o in Operands(ins) :: Refines(OpVal(v, o), OpVal(v', o))
    ensures Refines(Step(p, ins, id, v, env), Step(p, ins, id, v', env'))
  {
    hide OpVal, EvalBin, EvalCast, EvalSelect, Refines, Improves, Input;
    match ins
    case Cast(op, src, w) =>
      assert src in Operands(ins);
      EvalCastMonotone(op, WidthOf(p, src), w, OpVal(v, src), OpVal(v', src));
    case Bin(op, f, a, b, w) =>
      assert a in Operands(ins) && b in Operands(ins);
      EvalBinMonotone(op, f, w, OpVal(v, a), OpVal(v, b), OpVal(v', a), OpVal(v', b));
    case Select(c, a, b, _) =>
      assert c in Operands(ins) && a in Operands(ins) && b in Operands(ins);
      EvalSelectMonotone(OpVal(v, c), OpVal(v, a), OpVal(v, b), OpVal(v', c), OpVal(v', a), OpVal(v', b));
    case Opaque(_, w) => InputImproves(env, env', id, w);
  }

  lemma ImprovesSelf(env: Valuation)
    ensures Improves(env, env)
  {
    RefinesSelf();
  }

  // ----- one reduction -----

  /** A run that does not reach the trunc does not trap in the new program if the divisors are fine. */
  lemma OffPathNotUB(x: Run)
    requires x.Ok() && Added(x.w.home, x.p0, x.p, x.t, x.keys, x.nv, x.res, x.m) && x.m >= 1
    requires !x.w.Executed(x.t) && UBFree(x.w, x.p0, x.v0)
    requires DivisorsOk(x.w.home, x.p0, x.rank, x.t, x.keys, x.m)
    ensures UBFree(x.w, x.p, x.v)
  {
    hide Model, WellTyped, Ranked, Reducible, Rewritten, Improves, Added, ExecutedOk, Step, Refines;
    var v1 := ModelExists(x.p0, x.rank, x.env);
    var w1 := x.w.(env := x.env);
    var x1 := x.(w := w1, v0 := v1);
    ImprovesSelf(x.env);
    DominatedAnyway(x.w, x.env, x.p0);
    assert Acyclic(x.p0);
    forall id | id in x.p0 && w1.Executed(id) ensures id in v1 && !v1[id].UB? {
      ModelMonotone(x.p0, x.rank, x.w.env, x.env, x.v0, v1, id);
      StillNotUB(x, v1, id);
    }
    assert ExecutedOk(w1, x.p0, x.rank, v1, x.keys, x.m);
    NoNewUB(x1);
    assert forall id | x.w.Executed(id) :: w1.Executed(id);
  }

  lemma DominatedAnyway(w: World, env: Valuation, p: Program)
    requires w.Dominated(p)
    ensures w.(env := env).Dominated(p)
  {
    forall id, o | id in p && w.(env := env).Executed(id) && o in Operands(p[id]) ensures w.(env := env).Available(o) {
      assert w.Executed(id) && w.Available(o);
    }
  }

  lemma StillNotUB(x: Run, v1: Valuation, id: Id)
    requires UBFree(x.w, x.p0, x.v0) && id in x.p0 && x.w.Executed(id)
    requires id in x.v0 && id in v1 && Refines(x.v0[id], v1[id])
    ensures !v1[id].UB?
  {
  }

  /** One reduction implements the program it started from; if the analyses are right only where the
      trunc is reached, the divisors must be fine in the other runs. */
  lemma ReductionImplements(o: Oracle, trust: Trust, home: Id -> nat, p0: Program, rank: map<Id, nat>, t: Id,
                            keys: seq<Id>, m: nat, p: Program, nv: map<Id, Value>, res: Value)
    requires WellTyped(p0) && Ranked(p0, rank) && m >= 1 && Reducible(o, p0, t, keys, m)
    requires WellTyped(p) && Rewritten(p0, p, t, keys, nv, res, m) && Added(home, p0, p, t, keys, nv, res, m)
    requires trust.AtContext? ==> DivisorsOk(home, p0, rank, t, keys, m)
    ensures Implements(o, trust, home, p0, p)
  {
    hide Sound, Model, Ranked, Reducible, Rewritten, Added, WellTyped, SameObservers, UBFree, Run.Facts,
         DivisorsOk, World.Dominated, Improves;
    forall w: World, env, v0, v |
      w.home == home && Sound(o, trust, w) && w.Runs(p0, v0) && Improves(w.env, env) && Model(p, env, v)
      ensures Preserves(w, p0, v0, p, v)
    {
      var x := Run(o, p0, rank, t, keys, m, p, nv, res, w, v0, env, v);
      TrustedFacts(x, trust);
      ReductionObserved(x);
      DominatedAfter(x);
      if UBFree(w, p0, v0) {
        if x.Facts() { NoNewUB(x); } else { OffPathNotUB(x); }
      }
    }
  }

  // ----- exactly when answers right at the trunc are enough -----

  /** The analysis that claims everything at trunc t of p0 and nothing elsewhere. */
  function Bold(p0: Program, t: Id): Oracle {
    Oracle((p, c, v) => BoldMax(p0, t, p, c, v), (p, c, v) => BoldSigns(p0, t, p, c, v))
  }

  function BoldMax(p0: Program, t: Id, p: Program, c: Id, v: Value): nat {
    if p == p0 && c == t then 0 else Pow2(WidthOf(p, v))
  }

  function BoldSigns(p0: Program, t: Id, p: Program, c: Id, v: Value): nat {
    if p == p0 && c == t then WidthOf(p, v) else 1
  }

  /** A run that does not reach the trunc does not contradict it. */
  lemma BoldIsSound(p0: Program, t: Id, w: World)
    requires !w.Executed(t)
    ensures Sound(Bold(p0, t), AtContext, w)
  {
    hide World.Runs, BoundOk;
    forall p: Program, c: Id, val: Valuation, v: Value | w.Runs(p, val) && w.Executed(c)
      ensures BoundOk(Bold(p0, t), p, c, val, v)
    {
      CluelessIsRight(w, p, c, val, v);
      BoldElsewhere(p0, t, p, c, val, v);
    }
  }

  lemma BoldElsewhere(p0: Program, t: Id, p: Program, c: Id, val: Valuation, v: Value)
    requires c != t && BoundOk(CLUELESS, p, c, val, v)
    ensures BoundOk(Bold(p0, t), p, c, val, v)
  {
  }

  lemma BoldReduces(p0: Program, t: Id, keys: seq<Id>, m: nat)
    requires WellTyped(p0) && Shape(p0, t, keys, m)
    ensures Reducible(Bold(p0, t), p0, t, keys, m)
  {
    forall I | I in keys ensures I in p0 && SideConditions(Bold(p0, t), p0, t, I, m) {
      assert InstrOk(p0, p0[I]);
    }
  }

  /** A division that is not folded traps in the new program if its divisor is not fine. */
  lemma TrapsIfNotOk(x: Run, I: Id)
    requires x.Ok() && Added(x.w.home, x.p0, x.p, x.t, x.keys, x.nv, x.res, x.m) && x.m >= 1
    requires x.env == x.w.env && !x.w.Executed(x.t) && UBFree(x.w, x.p, x.v)
    requires I in x.keys && I in x.p0 && x.w.Executed(I)
    ensures DivisorOk(x.p0, x.rank, x.v0, x.m, I)
  {
    hide Run.Ok, Run.Facts, Added, Folds, NarrowOperand, OpVal, Built;
    NodeIs(x, I);
    RankOf(x, I);
    NodeEvaluates(x, I);
    if IsDivide(x.p0[I]) && !Folds(x.p0, x.rank, I) {
      NodeAvailable(x, I);
      NodeThere(x, I);
      ModelThere(x, x.nv[I].id);
      assert !x.v[x.nv[I].id].UB?;
      assert !NarrowVal(x.p0, x.rank, x.v0, x.m, I).UB? by { ValueHere(x, I); }
    }
  }

  lemma NodeThere(x: Run, I: Id)
    requires x.Ok() && I in x.keys && I in x.nv && x.nv[I].Ref?
    ensures x.nv[I].id in x.p
  {
    hide Run.Facts, Model, Reducible, Built;
    assert Lowered(x.p0, x.p, x.nv, x.m, I);
  }

  lemma ValueHere(x: Run, I: Id)
    requires I in x.nv && x.nv[I].Ref? && x.nv[I].id in x.v
    ensures OpVal(x.v, x.nv[I]) == x.v[x.nv[I].id]
  {
  }

  /** Whatever analyses, right at the trunc, chose the reduction to p, p implements p0. */
  ghost predicate ContextSuffices(home: Id -> nat, p0: Program, t: Id, keys: seq<Id>, m: nat, p: Program)
    requires WellTyped(p)
  {
    forall o | Reducible(o, p0, t, keys, m) :: Implements(o, AtContext, home, p0, p)
  }

  lemma SufficesFor(o: Oracle, home: Id -> nat, p0: Program, t: Id, keys: seq<Id>, m: nat, p: Program)
    requires WellTyped(p) && ContextSuffices(home, p0, t, keys, m, p) && Reducible(o, p0, t, keys, m)
    ensures Implements(o, AtContext, home, p0, p)
  {
  }

  /** Answers right at the trunc make the reduction safe, whatever they are, exactly if in each run that
      does not trap and does not reach the trunc, every division of the dag that is executed has a
      divisor which computed at width m is a number other than zero. */
  lemma ContextSufficesIff(home: Id -> nat, p0: Program, rank: map<Id, nat>, t: Id, keys: seq<Id>, m: nat, p: Program,
                           rank': map<Id, nat>, nv: map<Id, Value>, res: Value)
    requires WellTyped(p0) && Ranked(p0, rank) && m >= 1 && Shape(p0, t, keys, m)
    requires WellTyped(p) && Ranked(p, rank')
    requires Rewritten(p0, p, t, keys, nv, res, m) && Added(home, p0, p, t, keys, nv, res, m)
    ensures ContextSuffices(home, p0, t, keys, m, p) <==> DivisorsOk(home, p0, rank, t, keys, m)
  {
    hide Reducible, Implements, DivisorsOk, WellTyped, Ranked, Shape, Rewritten, Added, Bold;
    if DivisorsOk(home, p0, rank, t, keys, m) {
      forall o | Reducible(o, p0, t, keys, m) ensures Implements(o, AtContext, home, p0, p) {
        ReductionImplements(o, AtContext, home, p0, rank, t, keys, m, p, nv, res);
      }
    }
    if ContextSuffices(home, p0, t, keys, m, p) {
      BoldReduces(p0, t, keys, m);
      BoldDecides(home, p0, rank, t, keys, m, p, rank', nv, res);
    }
  }

  lemma BoldDecides(home: Id -> nat, p0: Program, rank: map<Id, nat>, t: Id, keys: seq<Id>, m: nat, p: Program,
                    rank': map<Id, nat>, nv: map<Id, Value>, res: Value)
    requires WellTyped(p0) && Ranked(p0, rank) && m >= 1 && Reducible(Bold(p0, t), p0, t, keys, m)
    requires WellTyped(p) && Ranked(p, rank')
    requires Rewritten(p0, p, t, keys, nv, res, m) && Added(home, p0, p, t, keys, nv, res, m)
    requires Implements(Bold(p0, t), AtContext, home, p0, p)
    ensures DivisorsOk(home, p0, rank, t, keys, m)
  {
    hide Sound, Model, Ranked, Reducible, Rewritten, Added, WellTyped, SameObservers, UBFree, Run.Facts,
         World.Dominated, Improves, DivisorOk, Bold;
    forall w: World, v0 | w.home == home && w.Runs(p0, v0) && UBFree(w, p0, v0) && !w.Executed(t)
      ensures ExecutedOk(w, p0, rank, v0, keys, m)
    {
      BoldIsSound(p0, t, w);
      ImprovesSelf(w.env);
      var v := ModelExists(p, rank', w.env);
      assert Preserves(w, p0, v0, p, v);
      var x := Run(Bold(p0, t), p0, rank, t, keys, m, p, nv, res, w, v0, w.env, v);
      forall I | I in keys && I in p0 && w.Executed(I) ensures DivisorOk(p0, rank, v0, m, I) {
        TrapsIfNotOk(x, I);
      }
    }
  }

  // ----- several reductions -----

  lemma ImplementsTransitive(o: Oracle, trust: Trust, home: Id -> nat, p0: Program, p1: Program, rank1: map<Id, nat>,
                             p2: Program)
    requires WellTyped(p1) && WellTyped(p2) && Ranked(p1, rank1)
    requires Implements(o, trust, home, p0, p1) && Implements(o, trust, home, p1, p2)
    ensures Implements(o, trust, home, p0, p2)
  {
    hide Sound, Model, Ranked, WellTyped, UBFree, World.Dominated, SameObservers, Improves;
    forall w: World, env, v0, v2 |
      w.home == home && Sound(o, trust, w) && w.Runs(p0, v0) && Improves(w.env, env) && Model(p2, env, v2)
      ensures Preserves(w, p0, v0, p2, v2)
    {
      var v1 := ModelExists(p1, rank1, w.env);
      ImprovesSelf(w.env);
      assert Preserves(w, p0, v0, p1, v1);
      assert w.Runs(p1, v1);
      assert Preserves(w, p1, v1, p2, v2);
      ObserversTransitive(w, p0, v0, p1, v1, p2, v2);
    }
  }

  lemma ObserversTransitive(w: World, p0: Program, v0: Valuation, p1: Program, v1: Valuation, p2: Program,
                            v2: Valuation)
    requires SameObservers(w, p0, v0, p1, v1) && SameObservers(w, p1, v1, p2, v2)
    ensures SameObservers(w, p0, v0, p2, v2)
  {
  }

  lemma ImplementsItself(o: Oracle, trust: Trust, home: Id -> nat, p: Program, rank: map<Id, nat>)
    requires WellTyped(p) && Ranked(p, rank)
    ensures Implements(o, trust, home, p, p)
  {
    hide Sound, Model, Ranked, Improves, Refines;
    forall w: World, env, v0, v |
      w.home == home && Sound(o, trust, w) && w.Runs(p, v0) && Improves(w.env, env) && Model(p, env, v)
      ensures Preserves(w, p, v0, p, v)
    {
      RefinesSelf();
      forall id | id in p ensures id in v0 && id in v && Refines(v0[id], v[id]) {
        ModelMonotone(p, rank, w.env, env, v0, v, id);
      }
      forall id, i | id in p && p[id].Opaque? && 0 <= i < |p[id].ops|
        ensures Refines(OpVal(v0, p[id].ops[i]), OpVal(v, p[id].ops[i]))
      {
        assert InstrOk(p, p[id]) && p[id].ops[i] in p[id].ops;
      }
      NotUBAfter(w, p, v0, v);
    }
  }

  lemma NotUBAfter(w: World, p: Program, v0: Valuation, v: Valuation)
    requires forall id | id in p :: id in v0 && id in v && Refines(v0[id], v[id])
    ensures UBFree(w, p, v0) ==> UBFree(w, p, v)
  {
  }

  // ----- the assumption on the analyses can be met -----

  /** The analysis that knows nothing. */
  const CLUELESS := Oracle((p, t, v) => Pow2(WidthOf(p, v)), (p, t, v) => 1)

  lemma CluelessIsSound(w: World, trust: Trust)
    ensures Sound(CLUELESS, trust, w)
  {
    hide World.Runs, BoundOk;
    forall p: Program, t: Id, val: Valuation, v: Value | w.Runs(p, val)
      ensures BoundOk(CLUELESS, p, t, val, v)
    {
      CluelessIsRight(w, p, t, val, v);
    }
  }

  lemma CluelessIsRight(w: World, p: Program, t: Id, val: Valuation, v: Value)
    requires w.Runs(p, val)
    ensures BoundOk(CLUELESS, p, t, val, v)
  {
    hide World.Dominated, Model;
    if ValueOk(p, v) && OpVal(val, v).Int? {
      if v.Ref? {
        var rank :| Ranked(p, rank);
        ModelInRange(p, rank, w.env, val, v.id);
      }
      assert Pow2(WidthOf(p, v)) == 2 * Pow2(WidthOf(p, v) - 1);
    }
  }
}
