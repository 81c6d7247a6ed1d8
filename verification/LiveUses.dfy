/** What makes an argument or a result live, read off the text of the program: the statements in which
    it stands, and whether what these do with it matters. */
module LiveUses {
  import opened Calls
  import opened Liveness

  // ----- statements and the locals before them -----

  /** `b` is a part of `whole`, reached when the locals are ctx; `whole` starts with the locals `from`. */
  ghost predicate Inside(whole: Body, from: seq<Binder>, ctx: seq<Binder>, b: Body)
    decreases whole
  {
    (ctx == from && b == whole)
    || match whole
       case Op(_, _, rest) => Inside(rest, from + [OpB], ctx, b)
       case Call(g, _, rest) => Inside(rest, from + [CallB(g)], ctx, b)
       case Output(_, rest) => Inside(rest, from, ctx, b)
       case If(_, thn, els) => Inside(thn, from, ctx, b) || Inside(els, from, ctx, b)
       case Return(_) => false
  }

  /** The statement at the head of b, in function h, has the operand o where its value matters: printed,
      computed with, branched on, passed as an argument that is live or variadic, or returned as a
      component that is live. */
  ghost predicate Matters(p: Program, live: set<RetOrArg>, h: FnId, b: Body, o: Operand) {
    match b
    case Op(_, args, _) => o in args
    case Call(g, args, _) =>
      exists j :: 0 <= j < |args| && args[j] == o && (g < |p| && j < p[g].nparams ==> Arg(g, j) in live)
    case Output(v, _) => v.Parts? && o in v.ops
    case If(c, _, _) => o == c
    case Return(v) => v.Parts? && exists j :: 0 <= j < |v.ops| && v.ops[j] == o && Ret(h, j) in live
  }

  /** The same of the whole result bound as local k: printed, or returned with some component live. */
  ghost predicate WholeMatters(p: Program, live: set<RetOrArg>, h: FnId, b: Body, k: nat) {
    match b
    case Output(v, _) => v == Whole(k)
    case Return(v) => v == Whole(k) && h < |p| && exists r: nat :: r < p[h].nrets && Ret(h, r) in live
    case _ => false
  }

  /** The statement uses the value ra where it matters: the parameter itself, or a component of the
      result of a call that is bound to a local, or that result as a whole. */
  ghost predicate UsedBy(p: Program, live: set<RetOrArg>, h: FnId, ctx: seq<Binder>, b: Body, ra: RetOrArg) {
    match ra
    case Arg(f, i) => h == f && Matters(p, live, h, b, Param(i))
    case Ret(g, r) =>
      exists k: nat :: k < |ctx| && ctx[k] == CallB(g)
                       && (Matters(p, live, h, b, Loc(k, r)) || WholeMatters(p, live, h, b, k))
  }

  ghost predicate IsUsed(p: Program, live: set<RetOrArg>, ra: RetOrArg) {
    exists h: FnId, ctx, b :: h < |p| && Inside(p[h].body, [], ctx, b) && UsedBy(p, live, h, ctx, b, ra)
  }

  /** Live is what a fixed signature makes live, and what is used where it matters. */
  ghost predicate ClosedUnderUses(p: Program, live: set<RetOrArg>) {
    forall ra | IsValue(p, ra) && (p[ra.f].pinned || (ra.Arg? && p[ra.f].fixedArgs) || IsUsed(p, live, ra)) ::
      ra in live
  }

  ghost predicate IsLeastUsed(p: Program, live: set<RetOrArg>) {
    ClosedUnderUses(p, live) && (forall ra | ra in live :: IsValue(p, ra))
    && forall other: set<RetOrArg> | ClosedUnderUses(p, other) :: live <= other
  }

  // ----- the facts of one statement -----

  /** Some fact in the list concerns ra and is a live use. */
  ghost predicate Concerns(p: Program, live: set<RetOrArg>, facts: seq<Fact>, ra: RetOrArg) {
    exists fact :: fact in facts && About(p, fact, ra) && UseLive(p, live, fact.use)
  }

  lemma ConcernsEither(p: Program, live: set<RetOrArg>, a: seq<Fact>, b: seq<Fact>, ra: RetOrArg)
    ensures Concerns(p, live, a + b, ra) <==> Concerns(p, live, a, ra) || Concerns(p, live, b, ra)
  {
    hide About, UseLive;
    if Concerns(p, live, a, ra) {
      var fact :| fact in a && About(p, fact, ra) && UseLive(p, live, fact.use);
      assert fact in a + b;
    }
    if Concerns(p, live, b, ra) {
      var fact :| fact in b && About(p, fact, ra) && UseLive(p, live, fact.use);
      assert fact in a + b;
    }
  }

  ghost predicate Names(h: FnId, ctx: seq<Binder>, o: Operand, ra: RetOrArg) {
    match ra
    case Arg(f, i) => h == f && o == Param(i)
    case Ret(g, r) => o.Loc? && o.r == r && o.k < |ctx| && ctx[o.k] == CallB(g)
  }

  lemma OperandConcerns(p: Program, live: set<RetOrArg>, h: FnId, ctx: seq<Binder>, o: Operand, use: Use, ra: RetOrArg)
    ensures Concerns(p, live, OperandFacts(h, ctx, o, use), ra) <==> Names(h, ctx, o, ra) && UseLive(p, live, use)
  {
    hide UseLive;
    var facts := OperandFacts(h, ctx, o, use);
    if Names(h, ctx, o, ra) && UseLive(p, live, use) {
      assert facts[0] in facts && About(p, facts[0], ra);
    }
  }

  lemma {:induction false} ListConcerns(p: Program, live: set<RetOrArg>, h: FnId, ctx: seq<Binder>, ops: seq<Operand>,
                                        pos: Position, n: nat, ra: RetOrArg)
    requires n <= |ops|
    ensures Concerns(p, live, ListFacts(h, ctx, ops, pos, n), ra)
       <==> exists j :: 0 <= j < n && Names(h, ctx, ops[j], ra) && UseLive(p, live, UseAt(pos, j))
  {
    hide UseLive, Concerns, Names, UseAt, About, OperandFacts;
    if n == 0 {
      assert !Concerns(p, live, [], ra) by { NothingConcerns(p, live, ra); }
    } else {
      ListConcerns(p, live, h, ctx, ops, pos, n - 1, ra);
      OperandConcerns(p, live, h, ctx, ops[n - 1], UseAt(pos, n - 1), ra);
      ConcernsEither(p, live, ListFacts(h, ctx, ops, pos, n - 1), OperandFacts(h, ctx, ops[n - 1], UseAt(pos, n - 1)),
                     ra);
    }
  }

  lemma NothingConcerns(p: Program, live: set<RetOrArg>, ra: RetOrArg)
    ensures !Concerns(p, live, [], ra)
  {
  }

  /** A use of a whole result concerns each of its components. */
  lemma WholeConcerns(p: Program, live: set<RetOrArg>, g: FnId, use: Use, ra: RetOrArg)
    requires IsValue(p, ra)
    ensures Concerns(p, live, [AggregateUse(g, use)], ra) <==> ra.Ret? && ra.f == g && UseLive(p, live, use)
  {
    hide UseLive;
    var fact := AggregateUse(g, use);
    assert fact in [fact];
  }

  /** The facts of the statement at the head of b. */
  function HeadFacts(p: Program, h: FnId, ctx: seq<Binder>, b: Body): seq<Fact> {
    match b
    case Op(_, args, _) => ListFacts(h, ctx, args, Plain, |args|)
    case Call(g, args, _) => ListFacts(h, ctx, args, ArgsOf(g, if g < |p| then p[g].nparams else 0), |args|)
    case Output(v, _) => OutputFacts(h, ctx, v)
    case If(c, _, _) => OperandFacts(h, ctx, c, OtherUse)
    case Return(_) => BodyFacts(p, h, ctx, b)
  }

  lemma DemandOfPart(p: Program, live: set<RetOrArg>, f: FnId, r: nat)
    ensures UseLive(p, live, ReturnPart(f, r)) <==> Ret(f, r) in live
    ensures UseLive(p, live, Argument(f, r)) <==> Arg(f, r) in live
  {
    assert Demands(p, ReturnPart(f, r))[0] == Ret(f, r) && Demands(p, Argument(f, r))[0] == Arg(f, r);
  }

  lemma DemandOfWhole(p: Program, live: set<RetOrArg>, f: FnId)
    ensures UseLive(p, live, ReturnWhole(f)) <==> f < |p| && exists r: nat :: r < p[f].nrets && Ret(f, r) in live
  {
    if r: nat :| f < |p| && r < p[f].nrets && Ret(f, r) in live {
      assert Demands(p, ReturnWhole(f))[r] == Ret(f, r);
    }
  }

  /** The operand o stands in the list where its use is live. */
  lemma {:induction false} ListMatters(p: Program, live: set<RetOrArg>, h: FnId, ctx: seq<Binder>, b: Body,
                                       ops: seq<Operand>, pos: Position, ra: RetOrArg)
    requires forall o :: Matters(p, live, h, b, o) <==>
               exists j :: 0 <= j < |ops| && ops[j] == o && UseLive(p, live, UseAt(pos, j))
    requires forall k: nat :: !WholeMatters(p, live, h, b, k)
    ensures Concerns(p, live, ListFacts(h, ctx, ops, pos, |ops|), ra) <==> UsedBy(p, live, h, ctx, b, ra)
  {
    hide Concerns, UseLive, UseAt, Matters, WholeMatters, ListFacts;
    ListConcerns(p, live, h, ctx, ops, pos, |ops|, ra);
    if j :| 0 <= j < |ops| && Names(h, ctx, ops[j], ra) && UseLive(p, live, UseAt(pos, j)) {
      assert Matters(p, live, h, b, ops[j]);
    }
    if UsedBy(p, live, h, ctx, b, ra) {
      var o := if ra.Arg? then Param(ra.i) else
        var k: nat :| k < |ctx| && ctx[k] == CallB(ra.f) && Matters(p, live, h, b, Loc(k, ra.i));
        Loc(k, ra.i);
      assert Names(h, ctx, o, ra);
      var j :| 0 <= j < |ops| && ops[j] == o && UseLive(p, live, UseAt(pos, j));
    }
  }

  lemma ListPositions(p: Program, live: set<RetOrArg>, h: FnId, b: Body)
    requires !b.If? && (b.Output? ==> b.v.Parts?) && (b.Return? ==> b.v.Parts?)
    ensures var ops := if b.Output? || b.Return? then b.v.ops else b.args;
            var pos := match b case Call(g, _, _) => ArgsOf(g, if g < |p| then p[g].nparams else 0)
                               case Return(_) => RetOf(h) case _ => Plain;
            (forall o :: Matters(p, live, h, b, o) <==>
               exists j :: 0 <= j < |ops| && ops[j] == o && UseLive(p, live, UseAt(pos, j)))
            && forall k: nat :: !WholeMatters(p, live, h, b, k)
  {
    hide Demands;
    forall f: FnId, r: nat ensures UseLive(p, live, ReturnPart(f, r)) <==> Ret(f, r) in live
      ensures UseLive(p, live, Argument(f, r)) <==> Arg(f, r) in live
    {
      DemandOfPart(p, live, f, r);
    }
  }

  /** The facts of a statement say what its text says. */
  lemma {:induction false} StatementConcerns(p: Program, live: set<RetOrArg>, h: FnId, ctx: seq<Binder>, b: Body,
                                             ra: RetOrArg)
    requires ProgramOk(p) && h < |p| && BodyOk(p, h, ctx, b) && IsValue(p, ra)
    ensures Concerns(p, live, HeadFacts(p, h, ctx, b), ra) <==> UsedBy(p, live, h, ctx, b, ra)
  {
    hide Concerns, ProgramOk, ListFacts, UseLive, About;
    if b.If? {
      OperandConcerns(p, live, h, ctx, b.cond, OtherUse, ra);
      IfMatters(p, live, h, ctx, b, ra);
    } else if (b.Output? || b.Return?) && b.v.Whole? {
      var k, g := b.v.k, ctx[b.v.k].f;
      WholeConcerns(p, live, g, if b.Output? then OtherUse else ReturnWhole(h), ra);
      DemandOfWhole(p, live, h);
      WholeUsed(p, live, h, ctx, b, ra);
    } else {
      ListPositions(p, live, h, b);
      var ops := if b.Output? || b.Return? then b.v.ops else b.args;
      var pos := match b case Call(g, _, _) => ArgsOf(g, if g < |p| then p[g].nparams else 0)
                         case Return(_) => RetOf(h) case _ => Plain;
      ListMatters(p, live, h, ctx, b, ops, pos, ra);
    }
  }

  lemma IfMatters(p: Program, live: set<RetOrArg>, h: FnId, ctx: seq<Binder>, b: Body, ra: RetOrArg)
    requires b.If?
    ensures UsedBy(p, live, h, ctx, b, ra) <==> Names(h, ctx, b.cond, ra)
    ensures UseLive(p, live, OtherUse)
  {
  }

  lemma WholeUsed(p: Program, live: set<RetOrArg>, h: FnId, ctx: seq<Binder>, b: Body, ra: RetOrArg)
    requires (b.Output? || b.Return?) && b.v.Whole? && b.v.k < |ctx| && ctx[b.v.k].CallB?
    requires h < |p|
    ensures UsedBy(p, live, h, ctx, b, ra)
       <==> ra.Ret? && ra.f == ctx[b.v.k].f && WholeMatters(p, live, h, b, b.v.k)
    ensures UseLive(p, live, OtherUse)
  {
  }

  // ----- the facts of the whole program -----

  /** Some statement inside b uses ra where it matters. */
  ghost predicate UsedInside(p: Program, live: set<RetOrArg>, h: FnId, from: seq<Binder>, b: Body, ra: RetOrArg) {
    exists ctx, s :: Inside(b, from, ctx, s) && UsedBy(p, live, h, ctx, s, ra)
  }

  /** The first statement of b, or some statement in what follows it. */
  lemma UsedInsideParts(p: Program, live: set<RetOrArg>, h: FnId, ctx: seq<Binder>, b: Body, ra: RetOrArg)
    ensures UsedInside(p, live, h, ctx, b, ra)
       <==> UsedBy(p, live, h, ctx, b, ra)
            || match b
               case Op(_, _, rest) => UsedInside(p, live, h, ctx + [OpB], rest, ra)
               case Call(g, _, rest) => UsedInside(p, live, h, ctx + [CallB(g)], rest, ra)
               case Output(_, rest) => UsedInside(p, live, h, ctx, rest, ra)
               case If(_, thn, els) => UsedInside(p, live, h, ctx, thn, ra) || UsedInside(p, live, h, ctx, els, ra)
               case Return(_) => false
  {
    hide UsedBy;
    if UsedBy(p, live, h, ctx, b, ra) { assert Inside(b, ctx, ctx, b); }
    match b
    case Op(_, _, rest) => InsideRest(p, live, h, ctx, b, ctx + [OpB], rest, ra);
    case Call(g, _, rest) => InsideRest(p, live, h, ctx, b, ctx + [CallB(g)], rest, ra);
    case Output(_, rest) => InsideRest(p, live, h, ctx, b, ctx, rest, ra);
    case If(_, thn, els) =>
      InsideRest(p, live, h, ctx, b, ctx, thn, ra);
      InsideRest(p, live, h, ctx, b, ctx, els, ra);
    case Return(_) =>
  }

  lemma {:induction false} InsideRest(p: Program, live: set<RetOrArg>, h: FnId, ctx: seq<Binder>, b: Body,
                                      more: seq<Binder>, rest: Body, ra: RetOrArg)
    requires forall c, s | Inside(rest, more, c, s) :: Inside(b, ctx, c, s)
    ensures UsedInside(p, live, h, more, rest, ra) ==> UsedInside(p, live, h, ctx, b, ra)
  {
    hide UsedBy, Inside;
  }

  lemma {:induction false} BodyConcerns(p: Program, live: set<RetOrArg>, h: FnId, ctx: seq<Binder>, b: Body,
                                        ra: RetOrArg)
    requires ProgramOk(p) && h < |p| && BodyOk(p, h, ctx, b) && IsValue(p, ra)
    ensures Concerns(p, live, BodyFacts(p, h, ctx, b), ra) <==> UsedInside(p, live, h, ctx, b, ra)
    decreases b
  {
    hide Concerns, UsedInside, UsedBy, ProgramOk, ListFacts, OutputFacts, OperandFacts;
    StatementConcerns(p, live, h, ctx, b, ra);
    UsedInsideParts(p, live, h, ctx, b, ra);
    var head := HeadFacts(p, h, ctx, b);
    match b
    case Op(_, _, rest) =>
      BodyConcerns(p, live, h, ctx + [OpB], rest, ra);
      ConcernsEither(p, live, head, BodyFacts(p, h, ctx + [OpB], rest), ra);
    case Call(g, _, rest) =>
      BodyConcerns(p, live, h, ctx + [CallB(g)], rest, ra);
      ConcernsEither(p, live, head, BodyFacts(p, h, ctx + [CallB(g)], rest), ra);
    case Output(_, rest) =>
      BodyConcerns(p, live, h, ctx, rest, ra);
      ConcernsEither(p, live, head, BodyFacts(p, h, ctx, rest), ra);
    case If(_, thn, els) =>
      BodyConcerns(p, live, h, ctx, thn, ra);
      BodyConcerns(p, live, h, ctx, els, ra);
      ConcernsEither(p, live, head, BodyFacts(p, h, ctx, thn), ra);
      ConcernsEither(p, live, head + BodyFacts(p, h, ctx, thn), BodyFacts(p, h, ctx, els), ra);
    case Return(_) =>
  }

  lemma {:induction false} FactsConcern(p: Program, live: set<RetOrArg>, n: nat, ra: RetOrArg)
    requires ProgramOk(p) && n <= |p| && IsValue(p, ra)
    ensures Concerns(p, live, FactsUpTo(p, n), ra)
       <==> exists h: FnId :: h < n && UsedInside(p, live, h, [], p[h].body, ra)
  {
    hide Concerns, UsedInside, BodyFacts, BodyOk;
    if n == 0 {
      NothingConcerns(p, live, ra);
    } else {
      FactsConcern(p, live, n - 1, ra);
      BodyConcerns(p, live, n - 1, [], p[n - 1].body, ra);
      ConcernsEither(p, live, FactsUpTo(p, n - 1), BodyFacts(p, n - 1, [], p[n - 1].body), ra);
    }
  }

  /** A value has a live use among the facts exactly if some statement uses it where it matters. */
  lemma FactsAreUses(p: Program, live: set<RetOrArg>, ra: RetOrArg)
    requires ProgramOk(p) && IsValue(p, ra)
    ensures HasLiveUse(p, live, ra) <==> IsUsed(p, live, ra)
  {
    hide Inside, UsedBy, About, UseLive, FactsUpTo, BodyOk;
    FactsConcern(p, live, |p|, ra);
    assert HasLiveUse(p, live, ra) <==> Concerns(p, live, FactsUpTo(p, |p|), ra);
    if IsUsed(p, live, ra) {
      var h: FnId, ctx, b :| h < |p| && Inside(p[h].body, [], ctx, b) && UsedBy(p, live, h, ctx, b, ra);
      assert UsedInside(p, live, h, [], p[h].body, ra);
    }
  }

  /** The least live set of the facts is the least one of the text. */
  lemma LeastIsLeastUsed(p: Program, live: set<RetOrArg>)
    requires ProgramOk(p)
    ensures IsLeastLive(p, live) <==> IsLeastUsed(p, live)
  {
    hide HasLiveUse, IsUsed, BodyOk;
    forall other: set<RetOrArg> ensures Closed(p, other) <==> ClosedUnderUses(p, other) {
      forall ra | IsValue(p, ra) ensures HasLiveUse(p, other, ra) <==> IsUsed(p, other, ra) {
        FactsAreUses(p, other, ra);
      }
    }
  }

  /** In the least live set, a component of a result is live only if its function is pinned or some
      statement uses it, or the whole result, where it matters; a parameter likewise. */
  lemma {:induction false} LiveIsUsed(p: Program, live: set<RetOrArg>, ra: RetOrArg)
    requires ProgramOk(p) && IsLeastUsed(p, live) && IsValue(p, ra)
    ensures ra in live <==> p[ra.f].pinned || (ra.Arg? && p[ra.f].fixedArgs) || IsUsed(p, live, ra)
  {
    hide BodyOk, Inside, Matters, WholeMatters;
    if ra in live && !(p[ra.f].pinned || (ra.Arg? && p[ra.f].fixedArgs) || IsUsed(p, live, ra)) {
      StillClosed(p, live, ra);
      assert false;
    }
  }

  lemma StillClosed(p: Program, live: set<RetOrArg>, ra: RetOrArg)
    requires ClosedUnderUses(p, live) && IsValue(p, ra)
    requires !(p[ra.f].pinned || (ra.Arg? && p[ra.f].fixedArgs) || IsUsed(p, live, ra))
    ensures ClosedUnderUses(p, live - {ra})
  {
    hide BodyOk, Inside, Matters, WholeMatters, IsUsed;
    var less := live - {ra};
    forall rb | IsValue(p, rb) && (p[rb.f].pinned || (rb.Arg? && p[rb.f].fixedArgs) || IsUsed(p, less, rb))
      ensures rb in less
    {
      if IsUsed(p, less, rb) { UsesGrow(p, less, live, rb); }
    }
  }

  lemma UsesGrow(p: Program, less: set<RetOrArg>, live: set<RetOrArg>, ra: RetOrArg)
    requires less <= live && IsUsed(p, less, ra)
    ensures IsUsed(p, live, ra)
  {
    hide Inside;
    var h: FnId, ctx, b :| h < |p| && Inside(p[h].body, [], ctx, b) && UsedBy(p, less, h, ctx, b, ra);
    assert UsedBy(p, live, h, ctx, b, ra) by { UsedGrows(p, less, live, h, ctx, b, ra); }
  }

  lemma UsedGrows(p: Program, less: set<RetOrArg>, live: set<RetOrArg>, h: FnId, ctx: seq<Binder>, b: Body,
                  ra: RetOrArg)
    requires less <= live && UsedBy(p, less, h, ctx, b, ra)
    ensures UsedBy(p, live, h, ctx, b, ra)
  {
    forall o | Matters(p, less, h, b, o) ensures Matters(p, live, h, b, o) { }
    forall k: nat | WholeMatters(p, less, h, b, k) ensures WholeMatters(p, live, h, b, k) { }
  }
}
