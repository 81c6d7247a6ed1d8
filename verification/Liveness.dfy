/** Who uses which argument or result, and what liveness those uses demand. */
module Liveness {
  import opened Calls

  /** An argument or a component of the result of a function. */
  datatype RetOrArg = Arg(f: FnId, i: nat) | Ret(f: FnId, i: nat)

  /** Ways a value is used: as part of a result, inside a whole returned result, as an argument of a
      known function, or otherwise. */
  datatype Use = ReturnPart(f: FnId, r: nat) | ReturnWhole(f: FnId) | Argument(f: FnId, j: nat) | OtherUse

  /** One use of an argument, of a result's component, or of a result as a whole. */
  datatype Fact =
    | ArgUse(f: FnId, i: nat, use: Use)
    | ExtractUse(f: FnId, r: nat, use: Use)
    | AggregateUse(f: FnId, use: Use)

  /** Where a list of operands stands. */
  datatype Position = Plain | ArgsOf(f: FnId, n: nat) | RetOf(f: FnId)

  function UseAt(pos: Position, j: nat): Use {
    match pos
    case Plain => OtherUse
    case ArgsOf(f, n) => if j < n then Argument(f, j) else OtherUse
    case RetOf(f) => ReturnPart(f, j)
  }

  function OperandFacts(h: FnId, ctx: seq<Binder>, o: Operand, use: Use): seq<Fact> {
    match o
    case Param(i) => [ArgUse(h, i, use)]
    case Loc(k, r) => if k < |ctx| && ctx[k].CallB? then [ExtractUse(ctx[k].f, r, use)] else []
    case _ => []
  }

  function ListFacts(h: FnId, ctx: seq<Binder>, ops: seq<Operand>, pos: Position, n: nat): seq<Fact>
    requires n <= |ops|
  {
    if n == 0 then [] else ListFacts(h, ctx, ops, pos, n - 1) + OperandFacts(h, ctx, ops[n - 1], UseAt(pos, n - 1))
  }

  function OutputFacts(h: FnId, ctx: seq<Binder>, v: Aggregate): seq<Fact> {
    match v
    case Parts(ops) => ListFacts(h, ctx, ops, Plain, |ops|)
    case Whole(k) => if k < |ctx| && ctx[k].CallB? then [AggregateUse(ctx[k].f, OtherUse)] else []
  }

  function BodyFacts(p: Program, h: FnId, ctx: seq<Binder>, b: Body): seq<Fact>
    decreases b
  {
    match b
    case Op(_, args, rest) => ListFacts(h, ctx, args, Plain, |args|) + BodyFacts(p, h, ctx + [OpB], rest)
    case Call(g, args, rest) =>
      ListFacts(h, ctx, args, ArgsOf(g, if g < |p| then p[g].nparams else 0), |args|)
      + BodyFacts(p, h, ctx + [CallB(g)], rest)
    case Output(v, rest) => OutputFacts(h, ctx, v) + BodyFacts(p, h, ctx, rest)
    case If(c, thn, els) => OperandFacts(h, ctx, c, OtherUse) + BodyFacts(p, h, ctx, thn) + BodyFacts(p, h, ctx, els)
    case Return(Parts(ops)) => ListFacts(h, ctx, ops, RetOf(h), |ops|)
    case Return(Whole(k)) => if k < |ctx| && ctx[k].CallB? then [AggregateUse(ctx[k].f, ReturnWhole(h))] else []
  }

  function FactsUpTo(p: Program, n: nat): seq<Fact>
    requires n <= |p|
  {
    if n == 0 then [] else FactsUpTo(p, n - 1) + BodyFacts(p, n - 1, [], p[n - 1].body)
  }

  function AllFacts(p: Program): seq<Fact> { FactsUpTo(p, |p|) }

  // ----- the universe of values -----

  predicate IsValue(p: Program, ra: RetOrArg) {
    ra.f < |p| && ra.i < if ra.Arg? then p[ra.f].nparams else p[ra.f].nrets
  }

  function ValuesOf(p: Program, f: FnId): set<RetOrArg>
    requires f < |p|
  {
    (set i: nat | i < p[f].nparams :: Arg(f, i)) + (set i: nat | i < p[f].nrets :: Ret(f, i))
  }

  function Values(p: Program, n: nat): (s: set<RetOrArg>)
    requires n <= |p|
    ensures forall ra :: ra in s <==> IsValue(p, ra) && ra.f < n
  {
    if n == 0 then {} else Values(p, n - 1) + ValuesOf(p, n - 1)
  }

  // ----- what liveness demands -----

  /** The values whose liveness makes this use live. */
  function Demands(p: Program, u: Use): seq<RetOrArg> {
    match u
    case ReturnPart(f, r) => [Ret(f, r)]
    case ReturnWhole(f) => seq(if f < |p| then p[f].nrets else 0, r requires 0 <= r => Ret(f, r))
    case Argument(f, j) => [Arg(f, j)]
    case OtherUse => []
  }

  ghost predicate UseLive(p: Program, live: set<RetOrArg>, u: Use) {
    u.OtherUse? || exists d :: d in Demands(p, u) && d in live
  }

  predicate About(p: Program, fact: Fact, ra: RetOrArg) {
    match fact
    case ArgUse(f, i, _) => ra == Arg(f, i)
    case ExtractUse(f, r, _) => ra == Ret(f, r)
    case AggregateUse(f, _) => ra.Ret? && ra.f == f && f < |p| && ra.i < p[f].nrets
  }

  ghost predicate Intrinsic(p: Program, ra: RetOrArg)
    requires IsValue(p, ra)
  {
    p[ra.f].pinned || (ra.Arg? && p[ra.f].fixedArgs)
  }

  ghost predicate HasLiveUse(p: Program, live: set<RetOrArg>, ra: RetOrArg) {
    exists fact :: fact in AllFacts(p) && About(p, fact, ra) && UseLive(p, live, fact.use)
  }

  /** Live values include the intrinsically live ones and everything with a live use. */
  ghost predicate Closed(p: Program, live: set<RetOrArg>) {
    forall ra | IsValue(p, ra) :: Intrinsic(p, ra) || HasLiveUse(p, live, ra) ==> ra in live
  }

  /** The least set of that kind. */
  ghost predicate IsLeastLive(p: Program, live: set<RetOrArg>) {
    Closed(p, live) && (forall ra | ra in live :: IsValue(p, ra))
    && forall other: set<RetOrArg> | Closed(p, other) :: live <= other
  }

  lemma LeastIsUnique(p: Program, a: set<RetOrArg>, b: set<RetOrArg>)
    requires IsLeastLive(p, a) && IsLeastLive(p, b)
    ensures a == b
  {
    assert a <= b && b <= a;
  }

  // ----- facts name real values -----

  predicate UseOk(p: Program, u: Use) {
    match u
    case ReturnPart(f, r) => IsValue(p, Ret(f, r))
    case ReturnWhole(f) => f < |p|
    case Argument(f, j) => IsValue(p, Arg(f, j))
    case OtherUse => true
  }

  predicate FactOk(p: Program, fact: Fact) {
    UseOk(p, fact.use)
    && match fact
       case ArgUse(f, i, _) => IsValue(p, Arg(f, i))
       case ExtractUse(f, r, _) => IsValue(p, Ret(f, r))
       case AggregateUse(f, _) => f < |p|
  }

  lemma {:induction false} ListFactsOk(p: Program, h: FnId, ctx: seq<Binder>, ops: seq<Operand>, pos: Position, n: nat)
    requires h < |p| && n <= |ops| && OperandsOk(p, h, ctx, ops)
    requires forall j | 0 <= j < n :: UseOk(p, UseAt(pos, j))
    ensures forall fact | fact in ListFacts(h, ctx, ops, pos, n) :: FactOk(p, fact)
  {
    if n > 0 {
      ListFactsOk(p, h, ctx, ops, pos, n - 1);
      assert OperandOk(p, h, ctx, ops[n - 1]);
    }
  }

  lemma {:induction false} BodyFactsOk(p: Program, h: FnId, ctx: seq<Binder>, b: Body)
    requires h < |p| && BodyOk(p, h, ctx, b)
    ensures forall fact | fact in BodyFacts(p, h, ctx, b) :: FactOk(p, fact)
    decreases b
  {
    match b
    case Op(_, args, rest) =>
      ListFactsOk(p, h, ctx, args, Plain, |args|);
      BodyFactsOk(p, h, ctx + [OpB], rest);
    case Call(g, args, rest) =>
      ListFactsOk(p, h, ctx, args, ArgsOf(g, p[g].nparams), |args|);
      BodyFactsOk(p, h, ctx + [CallB(g)], rest);
    case Output(v, rest) =>
      if v.Parts? {
        ListFactsOk(p, h, ctx, v.ops, Plain, |v.ops|);
      }
      BodyFactsOk(p, h, ctx, rest);
    case If(c, thn, els) =>
      BodyFactsOk(p, h, ctx, thn);
      BodyFactsOk(p, h, ctx, els);
    case Return(Parts(ops)) => ListFactsOk(p, h, ctx, ops, RetOf(h), |ops|);
    case Return(Whole(k)) =>
  }

  lemma {:induction false} FactsUpToOk(p: Program, n: nat)
    requires ProgramOk(p) && n <= |p|
    ensures forall fact | fact in FactsUpTo(p, n) :: FactOk(p, fact)
  {
    if n > 0 {
      FactsUpToOk(p, n - 1);
      BodyFactsOk(p, n - 1, [], p[n - 1].body);
    }
  }

  lemma AllFactsOk(p: Program)
    requires ProgramOk(p)
    ensures forall fact | fact in AllFacts(p) :: FactOk(p, fact)
  {
    FactsUpToOk(p, |p|);
  }
}
