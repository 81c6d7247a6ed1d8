/** The pass itself, on a function held as a map of instructions that it edits in place. */
module TruncInstCombine {
  import opened Collections
  import opened Bits
  import opened Ir
  import opened TruncDag
  import opened MinWidthWalk
  import opened TruncRewrite
  import opened TruncEdit
  import opened TruncImplements
  import opened TruncPlaces
  import opened TruncErase
  import opened TruncBest
  import opened TruncChoice

  // ----- reducing -----

  /** The worklist names truncs of the program, each once. */
  predicate WorklistOk(p: Program, w: seq<Id>) {
    Distinct(w) && forall id | id in w :: IsTrunc(p, id)
  }

  function NewValues(info: InfoMap): map<Id, Value> {
    map id | id in info && info[id].newValue.Some? :: info[id].newValue.value
  }

  lemma FoldTyped(p: Program, ins: Instr)
    requires InstrOk(p, ins) && AllConst(ins)
    ensures Typed(p, Fold(p, ins), ins.width)
  {
    match ins
    case Cast(op, src, w) =>
      assert src in Operands(ins);
      if op.ZExt? { Pow2Monotone(WidthOf(p, src), w); }
    case Bin(op, f, a, b, w) =>
      assert a in Operands(ins) && b in Operands(ins);
      var x, y := OpVal(map[], a), OpVal(map[], b);
      if EvalBin(op, NO_FLAGS, w, x, y).Int? { RawInRange(op, w, x.n, y.n); }
    case Select(c, a, b, w) => assert c in Operands(ins) && a in Operands(ins) && b in Operands(ins);
  }

  /** Nodes whose replacement is a new instruction, and the bit width they have added. */
  ghost predicate Account(j: Job, made: set<Id>, i: nat, total0: nat, total: nat)
    requires i <= |j.keys|
  {
    made <= Firsts(j.keys, i) && (forall I | I in made :: !UsedOutside(j.p0, j.t, j.keys, I))
    && total == total0 + j.m * |made|
  }

  lemma AccountSame(j: Job, made: set<Id>, i: nat, total0: nat, total: nat)
    requires j.Ok() && i < |j.keys| && Account(j, made, i, total0, total)
    ensures Account(j, made, i + 1, total0, total)
  {
    hide UsedOutside, Job.Ok;
    FirstsGrow(j, i);
  }

  /** Only extensions from width m are used outside, and those are not rebuilt. */
  lemma RebuiltIsInside(j: Job, i: nat)
    requires i < |j.keys| && j.t in j.p0 && j.p0[j.t].Cast? && Profitable(j.p0, j.t, j.keys, j.m)
    requires j.keys[i] in j.p0 && !(j.p0[j.keys[i]].Cast? && WidthOf(j.p0, j.p0[j.keys[i]].src) == j.m)
    ensures !UsedOutside(j.p0, j.t, j.keys, j.keys[i])
  {
    hide UsedOutside, WidthOf;
    assert j.keys[i] in j.keys;
  }

  lemma {:induction false} OneMoreTimes(m: nat, n: nat)
    ensures m * (n + 1) == m * n + m
  {
  }

  lemma AccountMade(j: Job, made: set<Id>, i: nat, total0: nat, total: nat)
    requires j.Ok() && i < |j.keys| && Account(j, made, i, total0, total)
    requires Profitable(j.p0, j.t, j.keys, j.m)
    requires j.keys[i] in j.p0 && !(j.p0[j.keys[i]].Cast? && WidthOf(j.p0, j.p0[j.keys[i]].src) == j.m)
    ensures Account(j, made + {j.keys[i]}, i + 1, total0, total + j.m)
  {
    hide UsedOutside, Job.Ok, Profitable, Firsts, WidthOf;
    FirstsGrow(j, i);
    JobTrunc(j);
    RebuiltIsInside(j, i);
    assert |made + {j.keys[i]}| == |made| + 1;
    OneMoreTimes(j.m, |made|);
  }

  ghost predicate WorklistClean(j: Job, p: Program, w: seq<Id>, i: nat)
    requires i <= |j.keys|
  {
    WorklistOk(p, w) && j.t !in w && forall I | I in j.keys[..i] :: I !in w
  }

  /** What became of the worklist w0, with n names in use: an entry is lost only when its node is rebuilt,
      and whatever joins is new; every new trunc joins, but for `extra`. */
  ghost predicate WorklistFollows(j: Job, p: Program, w0: seq<Id>, n: Id, w: seq<Id>, i: nat, extra: Value)
    requires i <= |j.keys|
  {
    (forall id | id in w0 :: id in w || id in j.keys[..i])
    && (forall id | id in w :: id in w0 || id >= n)
    && (forall id | IsTrunc(p, id) && id !in j.p0 :: id in w || extra == Ref(id))
    && (forall id | id in p && id !in j.p0 :: id >= n)
  }

  lemma FollowsStart(j: Job, w: seq<Id>, n: Id)
    ensures WorklistFollows(j, j.p0, w, n, w, 0, NOTHING)
  {
  }

  lemma FollowsSkip(j: Job, p: Program, w0: seq<Id>, n: Id, w: seq<Id>, i: nat)
    requires i < |j.keys| && WorklistFollows(j, p, w0, n, w, i, NOTHING)
    ensures WorklistFollows(j, p, w0, n, w, i + 1, NOTHING)
  {
    assert j.keys[..i + 1] == j.keys[..i] + [j.keys[i]];
  }

  lemma FollowsUpdate(j: Job, p: Program, w0: seq<Id>, n: Id, w: seq<Id>, i: nat, q: Program, w': seq<Id>, res: Value)
    requires i < |j.keys| && WorklistFollows(j, p, w0, n, w, i, NOTHING)
    requires forall id | id in w' :: id in w || res == Ref(id)
    requires forall id | id in w && id != j.keys[i] :: id in w'
    requires res.Ref? && IsTrunc(q, res.id) ==> res.id in w'
    requires res.Ref? ==> res.id >= n
    requires forall id | id in q && !(id in p && q[id] == p[id]) :: res == Ref(id)
    requires IsTrunc(p, j.keys[i]) ==> j.keys[i] in j.p0
    ensures WorklistFollows(j, q, w0, n, w', i + 1, NOTHING)
  {
    assert j.keys[..i + 1] == j.keys[..i] + [j.keys[i]];
  }

  lemma FollowsExtra(j: Job, p: Program, w0: seq<Id>, n: Id, w: seq<Id>, q: Program, res: Value)
    requires WorklistFollows(j, p, w0, n, w, |j.keys|, NOTHING)
    requires forall id | id in q && !(id in p && q[id] == p[id]) :: res == Ref(id) && id >= n
    ensures WorklistFollows(j, q, w0, n, w, |j.keys|, res)
  {
  }

  lemma FollowsReplace(j: Job, p: Program, w0: seq<Id>, n: Id, w: seq<Id>, res: Value, q: Program)
    requires WorklistFollows(j, p, w0, n, w, |j.keys|, res)
    requires forall id | id in q :: id in p && q[id] == ReplacedIn(p[id], j.t, res)
    ensures WorklistFollows(j, q, w0, n, w, |j.keys|, res)
  {
  }

  lemma FollowsErase(j: Job, p: Program, w0: seq<Id>, n: Id, w: seq<Id>, res: Value, q: Program)
    requires WorklistFollows(j, p, w0, n, w, |j.keys|, res)
    requires forall id | id in q :: id in p && q[id] == p[id]
    ensures WorklistFollows(j, q, w0, n, w, |j.keys|, res)
  {
  }

  lemma FollowsAtLast(j: Job, q: Program, rank: map<Id, nat>, nv: map<Id, Value>, w0: seq<Id>, n: Id, w: seq<Id>,
                      res: Value)
    requires j.Ok() && WorklistFollows(j, q, w0, n, w, |j.keys|, res) && Edited(j, q, rank, nv, res)
    ensures forall id | id in w :: id in w0 || id >= n
    ensures forall id | id in w0 :: id in w || id in j.keys
    ensures forall id | IsTrunc(q, id) && !IsTrunc(j.p0, id) :: id in w || res == Ref(id)
  {
    hide WellTyped, Ranked, FreshClean, Shape, Added, Lowered, NewValueClean;
    JobTrunc(j);
    assert j.keys[..|j.keys|] == j.keys;
  }

  lemma WorklistSkips(j: Job, p: Program, w: seq<Id>, i: nat)
    requires i < |j.keys| && WorklistClean(j, p, w, i) && !IsTrunc(p, j.keys[i])
    ensures WorklistClean(j, p, w, i + 1)
  {
    assert j.keys[..i + 1] == j.keys[..i] + [j.keys[i]];
  }

  lemma WorklistExtends(p: Program, q: Program, w: seq<Id>)
    requires WorklistOk(p, w) && Extends(p, q)
    ensures WorklistOk(q, w)
  {
  }

  lemma WorklistUpdated(j: Job, p: Program, w: seq<Id>, i: nat, q: Program, w': seq<Id>, res: Value)
    requires i < |j.keys| && WorklistClean(j, p, w, i) && WorklistOk(q, w') && j.keys[i] !in w'
    requires forall id | id in w' :: id in w || res == Ref(id)
    requires j.t in p && (forall I | I in j.keys :: I in p) && (res.Ref? ==> res.id !in p)
    ensures WorklistClean(j, q, w', i + 1)
  {
    assert j.keys[..i + 1] == j.keys[..i] + [j.keys[i]];
  }

  lemma NotInWorklist(p: Program, w: seq<Id>, I: Id)
    requires WorklistOk(p, w) && !IsTrunc(p, I)
    ensures I !in w
  {
  }

  /** Everything the rebuilding of node i needs to know. */
  lemma NodeFacts(j: Job, p: Program, rank: map<Id, nat>, nv: map<Id, Value>, w: seq<Id>, i: nat)
    requires j.Ok() && i < |j.keys| && Grown(j, p, rank, nv, i) && WorklistClean(j, p, w, i)
    ensures WellTyped(p) && WorklistOk(p, w) && j.t in p && (forall I | I in j.keys :: I in p)
            && (forall id | id in w :: id in p)
    ensures (forall id | id in j.p0 :: id in p) && j.keys[i] !in nv
    ensures var I := j.keys[i];
            I in j.rank0 && I in j.p0 && p[I] == j.p0[I] && !p[I].Opaque? && I in j.keys
            && LoweredInstr(p, nv, j.m, p[I]) == LoweredInstr(j.p0, nv, j.m, j.p0[I])
            && LoweredInstr(p, nv, j.m, p[I]).width == j.m && !LoweredInstr(p, nv, j.m, p[I]).Opaque?
            && (p[I].Cast? ==> WidthOf(p, p[I].src) == WidthOf(j.p0, p[I].src))
            && (p[I].Cast? && WidthOf(p, p[I].src) == j.m ==> !IsTrunc(p, I))
            && (!(p[I].Cast? && WidthOf(p, p[I].src) == j.m) ==> InstrOk(p, LoweredInstr(p, nv, j.m, p[I])))
  {
    hide Grown, Built, Shape, WellTyped, Ranked;
    var I := j.keys[i];
    NodeUnchanged(j, p, rank, nv, i, I);
    LoweredFits(j, p, rank, nv, i);
    GrownFacts(j, p, rank, nv, i);
    assert nv.Keys == Firsts(j.keys, i) by { GrownKeys(j, p, rank, nv, i); }
    FirstsGrow(j, i);
    forall J | J in j.keys ensures J in p { NodeUnchanged(j, p, rank, nv, i, J); }
  }

  lemma GrownKeys(j: Job, p: Program, rank: map<Id, nat>, nv: map<Id, Value>, i: nat)
    requires i <= |j.keys| && Grown(j, p, rank, nv, i)
    ensures nv.Keys == Firsts(j.keys, i)
  {
  }

  lemma WorklistCleanExtends(j: Job, p: Program, q: Program, w: seq<Id>, i: nat)
    requires i <= |j.keys| && WorklistClean(j, p, w, i) && Extends(p, q)
    ensures WorklistClean(j, q, w, i)
  {
  }

  lemma WorklistErase(p: Program, w: seq<Id>, I: Id)
    requires WorklistOk(p, w) && I !in w
    ensures WorklistOk(p - {I}, w)
  {
  }

  lemma KeyFacts(j: Job, q: Program, rank: map<Id, nat>, nv: map<Id, Value>, res: Value, i: nat)
    requires j.Ok() && Edited(j, q, rank, nv, res) && i < |j.keys|
    ensures var I := j.keys[i];
            I in j.keys && (I in q ==> q[I].width == WidthOf(j.p0, j.p0[j.t].src))
    ensures forall x | 0 <= x < |j.keys| && x != i :: j.keys[x] != j.keys[i]
  {
    hide Lowered, Built, WellTyped, Ranked;
    assert j.keys[i] in j.keys;
    JobNode(j, j.keys[i]);
  }

  lemma DistinctKeys(j: Job)
    requires j.Ok()
    ensures Distinct(j.keys)
  {
    hide WellTyped, Ranked;
  }

  lemma FirstsGrow(j: Job, i: nat)
    requires j.Ok() && i < |j.keys|
    ensures Firsts(j.keys, i) <= Firsts(j.keys, i + 1) && j.keys[i] in Firsts(j.keys, i + 1)
            && j.keys[i] !in Firsts(j.keys, i)
  {
    hide Job.Ok;
    DistinctKeys(j);
    assert j.keys[..i + 1] == j.keys[..i] + [j.keys[i]];
  }

  lemma LoweredKind(p: Program, nv: map<Id, Value>, m: nat, ins: Instr)
    ensures LoweredInstr(p, nv, m, ins).Cast? <==> ins.Cast?
  {
  }

  lemma SetNewValue(info: InfoMap, I: Id, v: Value)
    requires I in info
    ensures NewValues(info[I := info[I].(newValue := Some(v))]) == NewValues(info)[I := v]
  {
  }

  lemma StartFacts(j: Job, w: seq<Id>, info: InfoMap, total: nat)
    requires j.Ok() && WorklistOk(j.p0, w) && j.t !in w
    requires info.Keys == (set id | id in j.keys) && forall id | id in info :: info[id].newValue.None?
    ensures NewValues(info) == map[]
    ensures WorklistClean(j, j.p0, w, 0) && Account(j, {}, 0, total, total)
  {
  }

  lemma {:induction false} ReplaceFacts(j: Job, p: Program, rank: map<Id, nat>, nv: map<Id, Value>, res: Value,
                                        w: seq<Id>, n: nat)
    requires j.Ok() && Grown(j, p, rank, nv, |j.keys|) && WorklistClean(j, p, w, |j.keys|)
    requires forall id | id in p :: id < n
    ensures var q := ReplaceAllUses(p, j.t, res) - {j.t};
            WorklistOk(q, w) && (forall I | I in j.keys :: I in q && I !in w)
            && j.t in p && j.p0[j.t].Cast? && TotalWidth(q, n) + j.p0[j.t].width == TotalWidth(p, n)
  {
    hide Shape, WellTyped, Ranked, FreshClean, NodesDone;
    KeysPresent(j, p, rank);
    assert j.keys[..|j.keys|] == j.keys;
    forall I | I in j.keys ensures I != j.t { JobNode(j, I); }
    TotalReplace(p, n, j.t, res);
    TotalRemove(ReplaceAllUses(p, j.t, res), n, j.t);
  }

  /** Every new node is narrower than the old one erased for it. */
  lemma WidthDrops(j: Job, made: set<Id>, gone: set<Id>, total0: nat, total1: nat, total: nat)
    requires j.Ok() && Profitable(j.p0, j.t, j.keys, j.m)
    requires Account(j, made, |j.keys|, total0, total1)
    requires forall I | I in j.keys && !UsedOutside(j.p0, j.t, j.keys, I) :: I in gone
    requires var k := j.p0[j.t].width;
             total + WidthOf(j.p0, j.p0[j.t].src) * |gone| + k <= total1 + if j.m == k then 0 else k
    ensures total < total0
  {
    hide UsedOutside, IsDag, WellTyped, Ranked;
    var n, k, src := WidthOf(j.p0, j.p0[j.t].src), j.p0[j.t].width, j.p0[j.t].src;
    assert j.keys[..|j.keys|] == j.keys;
    assert made <= gone;
    SubsetSize(made, gone);
    MulMonotone(|made|, |gone|, j.m);
    MulMonotone(j.m + 1, n, |gone|);
    assert (j.m + 1) * |gone| == j.m * |gone| + |gone|;
    if j.m != k {
      RootInDag(j.p0, src, j.keys);
      assert src.id in gone;
      assert |gone| > 0;
    }
  }

  lemma EditedFacts(o: Oracle, j: Job, q: Program, rank: map<Id, nat>, nv: map<Id, Value>, res: Value)
    requires j.Ok() && Reducible(o, j.p0, j.t, j.keys, j.m) && Edited(j, q, rank, nv, res)
    ensures WellTyped(q) && Ranked(q, rank) && j.t !in q
    ensures Implements(o, AtUses, j.home, j.p0, q)
    ensures ContextSuffices(j.home, j.p0, j.t, j.keys, j.m, q)
       <==> DivisorsOk(j.home, j.p0, j.rank0, j.t, j.keys, j.m)
    ensures DividesWithCasts(j.home, j.p0) ==> DividesWithCasts(j.home, q) && Implements(o, AtContext, j.home, j.p0, q)
    ensures forall I | I in j.keys && UsedOutside(j.p0, j.t, j.keys, I) :: I in q
  {
    hide Lowered, Built, Implements, Reducible, Shape, FreshClean, Added, DivisorsOk, DividesAtTrunc,
         DividesWithCasts, ContextSuffices;
    JobWidth(j);
    ReductionImplements(o, AtUses, j.home, j.p0, j.rank0, j.t, j.keys, j.m, q, nv, res);
    ContextSufficesIff(j.home, j.p0, j.rank0, j.t, j.keys, j.m, q, rank, nv, res);
    if DividesWithCasts(j.home, j.p0) {
      PlacesKept(j, q, rank, nv, res);
      DividesThere(j.home, j.p0, j.t, j.keys, j.m);
      DividesAtTruncIsOk(j.home, j.p0, j.rank0, j.t, j.keys, j.m);
      SufficesFor(o, j.home, j.p0, j.t, j.keys, j.m, q);
    }
    forall I | I in j.keys && UsedOutside(j.p0, j.t, j.keys, I) ensures I in q {
      var u :| u in j.p0 && u != j.t && u !in j.keys && Uses(j.p0[u], I);
      JobNode(j, I);
      UseStays(j.p0[u], j.t, res, I);
      OperandInProgram(q, u, Ref(I));
    }
  }

  lemma JobWidth(j: Job)
    requires j.Ok()
    ensures WellTyped(j.p0) && Ranked(j.p0, j.rank0) && Shape(j.p0, j.t, j.keys, j.m) && j.m >= 1
  {
    hide WellTyped, Ranked, IsDag;
  }

  lemma UseStays(ins: Instr, t: Id, res: Value, I: Id)
    requires Uses(ins, I) && I != t
    ensures Uses(ReplacedIn(ins, t, res), I)
  {
    var i :| 0 <= i < |AllOperands(ins)| && AllOperands(ins)[i] == Ref(I);
    assert AllOperands(ReplacedIn(ins, t, res))[i] == Ref(I);
  }

  lemma PopTrunc(p: Program, w: seq<Id>)
    requires WorklistOk(p, w) && w != []
    ensures WorklistOk(p, w[..|w| - 1]) && w[|w| - 1] !in w[..|w| - 1]
    ensures w[|w| - 1] in p && p[w[|w| - 1]].Cast? && p[w[|w| - 1]].cop.Trunc? && IsTrunc(p, w[|w| - 1])
    ensures w == w[..|w| - 1] + [w[|w| - 1]]
  {
    var t := w[|w| - 1];
    assert t in w;
    forall i | 0 <= i < |w| - 1 ensures w[i] != t { }
  }

  // ----- what a run of the pass does, trunc by trunc -----

  /** A trunc's turn: the program before and after, the dag rebuilt if there was one, and what the trunc
      was replaced by. */
  datatype Visit = Visit(t: Id, before: Program, after: Program, dag: seq<Id>, result: Value)

  /** The trunc is reduced exactly if there is a width for it; otherwise nothing happens. */
  ghost predicate VisitOk(o: Oracle, legal: seq<nat>, v: Visit) {
    IsTrunc(v.before, v.t)
    && if !NoWidth(o, v.before, v.t, legal)
       then v.t !in v.after && forall id :: id in v.dag <==> FeedsInto(v.before, v.t, id)
       else v.after == v.before && v.dag == []
  }

  /** The visits lead from p to q, no trunc having two turns. */
  ghost predicate History(o: Oracle, legal: seq<nat>, p: Program, visits: seq<Visit>, q: Program) {
    (forall i | 0 <= i < |visits| :: VisitOk(o, legal, visits[i]))
    && (forall i, j | 0 <= i < j < |visits| :: visits[i].t != visits[j].t)
    && (forall i | 0 < i < |visits| :: visits[i].before == visits[i - 1].after)
    && if visits == [] then q == p else visits[0].before == p && visits[|visits| - 1].after == q
  }

  /** The trunc had its turn, or was rebuilt as part of another one's dag. */
  ghost predicate DealtWith(visits: seq<Visit>, id: Id) {
    exists i :: 0 <= i < |visits| && (visits[i].t == id || id in visits[i].dag)
  }

  ghost predicate IsResult(visits: seq<Visit>, id: Id) {
    exists i :: 0 <= i < |visits| && visits[i].result == Ref(id)
  }

  /** Whatever is to be dealt with has been, or is still on the worklist. */
  ghost predicate OnTrack(p: Program, instructions: seq<Id>, visits: seq<Visit>, q: Program, w: seq<Id>) {
    (forall t | t in instructions && IsTrunc(p, t) :: t in w || DealtWith(visits, t))
    && (forall t | IsTrunc(q, t) && !IsTrunc(p, t) :: t in w || DealtWith(visits, t) || IsResult(visits, t))
  }

  /** The loop's account of what has happened, with n names in use. */
  ghost predicate Tracked(o: Oracle, legal: seq<nat>, p: Program, instructions: seq<Id>, visits: seq<Visit>, q: Program,
                          w: seq<Id>, n: Id) {
    History(o, legal, p, visits, q) && OnTrack(p, instructions, visits, q, w)
    && forall i | 0 <= i < |visits| :: visits[i].t < n && visits[i].t !in w
  }

  lemma NextTracked(o: Oracle, legal: seq<nat>, p: Program, instructions: seq<Id>, visits: seq<Visit>, w: seq<Id>,
                    n: Id, v: Visit, w': seq<Id>, n': Id)
    requires Tracked(o, legal, p, instructions, visits, v.before, w + [v.t], n) && VisitOk(o, legal, v)
    requires forall id | id in w :: id in w' || id in v.dag
    requires forall id | id in w' :: id in w || id >= n
    requires forall id | IsTrunc(v.after, id) && !IsTrunc(v.before, id) :: id in w' || v.result == Ref(id)
    requires n <= n' && v.t < n && v.t !in w
    ensures Tracked(o, legal, p, instructions, visits + [v], v.after, w', n')
  {
    hide History, OnTrack, VisitOk;
    NextVisit(o, legal, p, visits, v);
    StillOnTrack(p, instructions, visits, v.before, w, v, w');
  }

  lemma DealtWithStays(visits: seq<Visit>, v: Visit)
    ensures forall id | DealtWith(visits, id) :: DealtWith(visits + [v], id)
    ensures forall id | IsResult(visits, id) :: IsResult(visits + [v], id)
    ensures DealtWith(visits + [v], v.t) && forall id | id in v.dag :: DealtWith(visits + [v], id)
    ensures forall id | v.result == Ref(id) :: IsResult(visits + [v], id)
  {
    var more := visits + [v];
    assert more[|visits|] == v;
    forall id | DealtWith(visits, id) ensures DealtWith(more, id) {
      var i :| 0 <= i < |visits| && (visits[i].t == id || id in visits[i].dag);
      assert more[i] == visits[i];
    }
    forall id | IsResult(visits, id) ensures IsResult(more, id) {
      var i :| 0 <= i < |visits| && visits[i].result == Ref(id);
      assert more[i] == visits[i];
    }
  }

  lemma NextVisit(o: Oracle, legal: seq<nat>, p: Program, visits: seq<Visit>, v: Visit)
    requires History(o, legal, p, visits, v.before) && VisitOk(o, legal, v)
    requires forall i | 0 <= i < |visits| :: visits[i].t != v.t
    ensures History(o, legal, p, visits + [v], v.after)
  {
    hide VisitOk;
  }

  lemma StillOnTrack(p: Program, instructions: seq<Id>, visits: seq<Visit>, q: Program, w: seq<Id>, v: Visit,
                     w': seq<Id>)
    requires OnTrack(p, instructions, visits, q, w + [v.t])
    requires forall id | id in w :: id in w' || id in v.dag
    requires forall id | IsTrunc(v.after, id) && !IsTrunc(q, id) :: id in w' || v.result == Ref(id)
    ensures OnTrack(p, instructions, visits + [v], v.after, w')
  {
    hide DealtWith, IsResult;
    DealtWithStays(visits, v);
  }

  lemma ReducedVisit(o: Oracle, legal: seq<nat>, v: Visit, m: nat)
    requires IsTrunc(v.before, v.t) && IsDag(v.before, v.before[v.t].src, v.dag) && v.t !in v.after
    requires ReducesTo(o, v.before, v.t, legal, m)
    ensures VisitOk(o, legal, v)
  {
    hide ReducesTo, IsDag, FeedsInto;
    DagFeeds(v.before, v.t, v.dag);
  }

  class TruncInstCombiner {
    const oracle: Oracle
    const legal: seq<nat>
    const home: Id -> nat      // where in the function a name stands
    const supply: (Id, nat) -> Id
    var prog: Program
    var nextId: Id             // names from here on are free
    var worklist: seq<Id>
    var current: Id
    var keys: seq<Id>          // InstInfoMap's instructions in insertion order
    var info: map<Id, Info>    // InstInfoMap's entries
    ghost var rank: map<Id, nat>

    /** There are always more names for any place. */
    ghost predicate NamesOk() {
      forall at: Id, n: nat :: supply(at, n) >= n && home(supply(at, n)) == home(at)
    }

    ghost predicate Valid()
      reads this
    {
      WellTyped(prog) && Ranked(prog, rank) && (forall id | id in prog :: id < nextId)
      && current in prog && prog[current].Cast? && prog[current].cop.Trunc?
    }

    function Source(): Value
      requires current in prog && prog[current].Cast?
      reads this
    {
      prog[current].src
    }

    method BuildTruncExpressionDag() returns (ok: bool)
      requires Valid()
      modifies this`keys, this`info
      ensures ok <==> (forall id | Source().Ref? && Reaches(prog, Source().id, id) :: id in prog && Supported(prog[id]))
      ensures ok ==> IsDag(prog, Source(), keys)
      ensures ok ==> info.Keys == (set id | id in keys) && forall id | id in info :: info[id] == NEW_INFO
    {
      hide BuildInv, WellTyped, Ranked, InstrOk, Reaches, IsDag, Unseen;
      ghost var root := Source();
      TypedAt(prog, current);
      keys, info := [], map[];
      var work: seq<Value> := [Source()];
      var stack: seq<Id> := [];
      ghost var pos: seq<nat> := [];
      BuildStart(prog, rank, root);
      while work != []
        invariant BuildInv(prog, rank, root, work, stack, pos, keys)
        invariant info.Keys == (set id | id in keys) && forall id | id in info :: info[id] == NEW_INFO
        decreases Unseen(prog, keys, stack), |work|
      {
        var last := |work| - 1;
        var curr := work[last];
        if curr.Const? {
          PopHandled(prog, rank, root, work, stack, pos, keys);
          work := work[..last];
          continue;
        }
        var I := curr.id;
        TopIsLast(prog, rank, root, work, stack, pos, keys);
        if stack != [] && stack[|stack| - 1] == I {
          PopDone(prog, rank, root, work, stack, pos, keys);
          UnseenAfterPop(prog, keys, stack);
          work, stack, pos := work[..last], stack[..|stack| - 1], pos[..|pos| - 1];
          keys, info := keys + [I], info[I := NEW_INFO];
          continue;
        }
        if I in info {
          PopHandled(prog, rank, root, work, stack, pos, keys);
          work := work[..last];
          continue;
        }
        if !Supported(prog[I]) {
          return false;
        }
        PushOperands(prog, rank, root, work, stack, pos, keys);
        UnseenAfterPush(prog, keys, stack, I);
        work, stack, pos := work + Relevant(prog[I]), stack + [I], pos + [last];
      }
      BuildIsExact(prog, rank, root, stack, pos, keys);
      return true;
    }

    /** A finished node takes the largest minimum among its operands. */
    method RaiseToOperands(I: Id, ghost init: InfoMap, ghost k: nat)
      requires I in prog && I in info && Attained(init, k, info[I].min)
      requires forall y | Edge(prog, I, y) :: y in info && Attained(init, k, info[y].min)
      modifies this`info
      ensures I in info && info == old(info)[I := old(info)[I].(min := info[I].min)]
      ensures info[I].min >= old(info)[I].min && Attained(init, k, info[I].min)
      ensures forall y | Edge(prog, I, y) :: old(info)[y].min <= info[I].min
    {
      hide Attained;
      ghost var before := info;
      var ops := Relevant(prog[I]);
      for n := 0 to |ops|
        invariant I in info && info == before[I := before[I].(min := info[I].min)]
        invariant info[I].min >= before[I].min && Attained(init, k, info[I].min)
        invariant forall i | 0 <= i < n && ops[i].Ref? :: ops[i].id in before && before[ops[i].id].min <= info[I].min
      {
        if ops[n].Ref? {
          assert Edge(prog, I, ops[n].id);
          info := info[I := info[I].(min := Max(info[I].min, info[ops[n].id].min))];
        }
      }
      OperandBounds(prog, before, I, info[I].min);
    }

    /** Operands not yet seen at this valid width go on the worklist. */
    method PushUnseenOperands(ghost init: InfoMap, ghost k: nat, ghost root: Id, work0: seq<Value>, stack: seq<Id>,
                              ghost pos: seq<nat>, I: Id, valid: nat)
      returns (work: seq<Value>)
      requires MinInv(prog, init, info, k, root, work0, stack, pos, {I}) && valid == k && work0 != []
      requires stack != [] && stack[|stack| - 1] == I && I in prog
      requires forall y | Edge(prog, I, y) :: y in info
      modifies this`info
      ensures info.Keys == old(info).Keys
      ensures MinInv(prog, init, info, k, root, work, stack, pos, {I})
      ensures OperandsSeen(prog, info, k, I)
      ensures UnseenInfo(info, k) < UnseenInfo(old(info), k)
              || (UnseenInfo(info, k) == UnseenInfo(old(info), k) && |work| == |work0|)
    {
      hide MinInv, OperandsSeen, Edge;
      ghost var before := info;
      var ops := Relevant(prog[I]);
      work := work0;
      for n := 0 to |ops|
        invariant info.Keys == before.Keys && work != []
        invariant MinInv(prog, init, info, k, root, work, stack, pos, {I})
        invariant forall i | 0 <= i < n && ops[i].Ref? :: Seen(info, k, ops[i].id)
        invariant UnseenInfo(info, k) < UnseenInfo(before, k)
                  || (UnseenInfo(info, k) == UnseenInfo(before, k) && |work| == |work0|)
      {
        if ops[n].Ref? {
          var y := ops[n].id;
          OperandIsEdge(prog, I, n);
          ValidIsZeroOrK(prog, init, info, k, root, work, stack, pos, {I}, y);
          if info[y].valid < valid {
            AddOperand(prog, init, info, k, root, work, stack, pos, I, y);
            assert y in UnseenInfo(info, k);
            info := info[y := info[y].(valid := valid)];
            work := work + [Ref(y)];
          }
        }
      }
      AllSeen(prog, info, k, I);
    }

    method GetMinBitWidth() returns (width: nat)
      requires Valid()
      requires IsDag(prog, Source(), keys) && info.Keys == (set id | id in keys)
      requires forall d | d in info :: info[d].valid == 0
      modifies this`info
      ensures info.Keys == old(info.Keys)
      ensures forall d | d in info :: info[d].newValue == old(info)[d].newValue
      ensures Source().Const? ==> width == prog[current].width
      ensures Source().Ref? ==> Source().id in info
      ensures Source().Ref? ==> IsMaxRequirement(old(info), prog[current].width, info[Source().id].min)
      ensures Source().Ref? ==> width == ChosenWidth(legal, info[Source().id].min, prog[current].width,
                                                     WidthOf(prog, Source()))
    {
      hide MinInv, OperandsSeen, Attained, WellTyped, Ranked, IsDag, Edge, ChosenWidth, InstrOk, Reaches, UnseenInfo,
           Seen, WidthOf, IsMaxRequirement;
      ghost var init := info;
      var k := prog[current].width;
      var orig := WidthOf(prog, Source());
      if Source().Const? {
        return k;
      }
      var root := Source().id;
      RootInDag(prog, Source(), keys);
      DagMembers(prog, Source(), keys);
      TypedAt(prog, current);
      var work: seq<Value> := [Ref(root)];
      var stack: seq<Id> := [];
      ghost var pos: seq<nat> := [];
      MinStart(prog, init, k, root);
      info := info[root := info[root].(valid := k)];
      while work != []
        invariant MinInv(prog, init, info, k, root, work, stack, pos, {}) && info.Keys == init.Keys
        decreases UnseenInfo(info, k), 2 * |work| - |stack|
      {
        var last := |work| - 1;
        MinTopOf(prog, init, info, k, root, work, stack, pos);
        var I := work[last].id;
        SeenIsValid(info, k, I);
        ghost var before := info;
        if stack != [] && stack[|stack| - 1] == I {
          OperandsInfo(prog, init, info, k, root, work, stack, pos, I);
          RaiseToOperands(I, init, k);
          FinishNode(prog, init, before, k, root, work, stack, pos, info[I].min, info);
          work, stack, pos := work[..last], stack[..|stack| - 1], pos[..|pos| - 1];
          RaisingUnseen(before, info, I, k);
        } else {
          var valid := info[I].valid;
          info := info[I := info[I].(min := Max(info[I].min, valid))];
          RaisingUnseen(before, info, I, k);
          DagClosedAt(prog, Source(), keys, I);
          BeginNode(prog, init, before, k, root, work, stack, pos, I, info);
          stack, pos := stack + [I], pos + [last];
          work := PushUnseenOperands(init, k, root, work, stack, pos, I, valid);
          OperandsDone(prog, init, info, k, root, work, stack, pos, I);
        }
      }
      MinTables(prog, init, info, k, root, work, stack, pos);
      MinIsExact(prog, init, info, k, root, stack, pos);
      MaxIsRequirement(init, k, info[root].min);
      width := ChosenWidth(legal, info[root].min, k, orig);
    }

    /** The width to reduce the current dag to, or None exactly if there is none. */
    method GetBestTruncatedType() returns (r: Option<nat>)
      requires Valid()
      modifies this`keys, this`info
      ensures r.Some? ==> IsDag(prog, Source(), keys) && Chosen(oracle, prog, current, keys, legal, r.value)
      ensures r.Some? ==> ReducesTo(oracle, prog, current, legal, r.value)
      ensures r.None? ==> NoWidth(oracle, prog, current, legal)
      ensures r.Some? ==> Reducible(oracle, prog, current, keys, r.value) && Profitable(prog, current, keys, r.value)
      ensures r.Some? ==> info.Keys == (set id | id in keys) && forall id | id in info :: info[id].newValue.None?
    {
      hide IsDag, WellTyped, Ranked, Reaches, UsedOutside, Requirement, Rejected, Chosen, IsNeed, IsMaxRequirement,
           ChosenWidth, Profitable, Reducible, ReducesTo, NoWidth, Supported;
      var ok := BuildTruncExpressionDag();
      if !ok {
        ghost var id :| Source().Ref? && Reaches(prog, Source().id, id) && !(id in prog && Supported(prog[id]));
        UnsupportedMeans(oracle, prog, current, legal, id);
        return None;
      }
      var agreed, desired := AgreeOnWidth();
      if !agreed {
        RejectedMeans(oracle, prog, current, keys, legal);
        return None;
      }
      var small := SetRequirements();
      if !small {
        RejectedMeans(oracle, prog, current, keys, legal);
        return None;
      }
      ghost var needs := info;
      var width := GetMinBitWidth();
      ghost var w := if Source().Ref? then info[Source().id].min else 0;
      if Source().Ref? {
        NeedFromTable(oracle, prog, current, keys, needs, w);
      }
      if width >= WidthOf(prog, Source()) || (desired != 0 && desired != width) {
        RejectWidth(oracle, prog, current, legal, keys, w, width, desired);
        RejectedMeans(oracle, prog, current, keys, legal);
        return None;
      }
      ChoiceIsGood(oracle, prog, current, keys, needs, legal, desired, width, w);
      ChoiceIsChosen(oracle, prog, current, keys, legal, desired, width, w);
      ChosenIff(oracle, prog, current, keys, legal, width);
      return Some(width);
    }

    /** The first loop of getBestTruncatedType: users outside the dag allow only extensions from one
        width, which is `desired`, or 0 if there are none. */
    method AgreeOnWidth() returns (agreed: bool, desired: nat)
      requires Valid() && IsDag(prog, Source(), keys)
      ensures !agreed ==> Rejected(oracle, prog, current, legal)
      ensures agreed ==> forall I | I in keys && UsedOutside(prog, current, keys, I) ::
                I in prog && IsExt(prog[I]) && WidthOf(prog, prog[I].src) == desired && desired != 0
      ensures agreed && desired != 0 ==> SomeUser(desired)
    {
      hide IsDag, WellTyped, Ranked, Reaches, UsedOutside, Rejected;
      desired := 0;
      TypedAt(prog, current);
      DagMembers(prog, Source(), keys);
      for i := 0 to |keys|
        invariant forall I | I in keys[..i] && UsedOutside(prog, current, keys, I) ::
                    IsExt(prog[I]) && WidthOf(prog, prog[I].src) == desired && desired != 0
        invariant desired != 0 ==> SomeUser(desired)
      {
        var I := keys[i];
        assert keys[..i + 1] == keys[..i] + [I];
        if NumUses(prog, nextId, I) == 1 {
          SingleUseIsInside(prog, nextId, current, keys, I);
          continue;
        }
        var fits, d := CheckUsers(I, desired);
        if !fits {
          ghost var J :| J in keys && (if desired == 0 || !IsExt(prog[I]) then J == I else
            J in prog && UsedOutside(prog, current, keys, J) && IsExt(prog[J])
              && WidthOf(prog, prog[J].src) == desired);
          RejectUser(oracle, prog, current, legal, keys, I, J);
          return false, desired;
        }
        desired := d;
      }
      assert keys[..|keys|] == keys;
      return true, desired;
    }

    /** Some extension from this width has a user outside the dag. */
    ghost predicate SomeUser(width: nat)
      reads this
    {
      exists J :: J in keys && J in prog && UsedOutside(prog, current, keys, J) && IsExt(prog[J])
        && WidthOf(prog, prog[J].src) == width
    }

    /** The second loop: every node's requirement enters the table, unless one is too large. */
    method SetRequirements() returns (small: bool)
      requires Valid() && IsDag(prog, Source(), keys)
      requires info.Keys == (set id | id in keys) && forall id | id in info :: info[id] == NEW_INFO
      modifies this`info
      ensures info.Keys == (set id | id in keys)
      ensures forall id | id in info :: info[id].valid == 0 && info[id].newValue.None?
      ensures !small ==> Rejected(oracle, prog, current, legal)
      ensures small ==> forall I | I in keys ::
                I in prog && info[I].min < WidthOf(prog, Source())
                && info[I].min == Requirement(oracle, prog, current, WidthOf(prog, Source()), prog[I])
    {
      hide IsDag, WellTyped, Ranked, Reaches, Requirement, Rejected;
      DagMembers(prog, Source(), keys);
      var orig := WidthOf(prog, Source());
      for i := 0 to |keys|
        invariant info.Keys == (set id | id in keys)
        invariant forall id | id in info :: info[id].valid == 0 && info[id].newValue.None?
        invariant forall I | I in keys[..i] :: info[I].min == Requirement(oracle, prog, current, orig, prog[I]) < orig
      {
        var I := keys[i];
        assert keys[..i + 1] == keys[..i] + [I];
        var need := Requirement(oracle, prog, current, orig, prog[I]);
        if need >= orig {
          RejectNeed(oracle, prog, current, legal, keys, I);
          return false;
        }
        info := info[I := info[I].(min := need)];
      }
      assert keys[..|keys|] == keys;
      return true;
    }

    /** Every use outside the dag must be of an extension, all from one width. */
    method CheckUsers(I: Id, desired: nat) returns (fits: bool, d: nat)
      requires Valid() && I in prog
      ensures !fits <==>
              UsedOutside(prog, current, keys, I)
              && !(IsExt(prog[I]) && (desired == 0 || WidthOf(prog, prog[I].src) == desired))
      ensures fits && UsedOutside(prog, current, keys, I) ==>
              IsExt(prog[I]) && WidthOf(prog, prog[I].src) == d
              && d != 0
      ensures fits && !UsedOutside(prog, current, keys, I) ==> d == desired
    {
      hide Ranked, WellTyped, Uses, UsedOutside, InstrOk;
      d := desired;
      NoUser(prog, current, keys, I);
      for u := 0 to nextId
        invariant desired != 0 ==> d == desired
        invariant if HasUserBelow(prog, current, keys, I, u)
                  then IsExt(prog[I]) && WidthOf(prog, prog[I].src) == d && d != 0
                  else d == desired
      {
        NextUser(prog, current, keys, I, u);
        if u in prog && Uses(prog[u], I) && u != current && u !in keys {
          AnyUser(prog, current, keys, I, u);
          if !IsExt(prog[I]) {
            return false, d;
          }
          var w := WidthOf(prog, prog[I].src);
          if d != 0 && d != w {
            return false, d;
          }
          TypedAt(prog, I);
          SourceWidth(prog, prog[I]);
          d := w;
        }
      }
      AllUsers(prog, current, keys, I, nextId);
      return true, d;
    }

    /** The instruction builder: constant operands fold, anything else is inserted under a new name,
        right before instruction `at`. */
    method Build(ins: Instr, at: Id, ghost r: nat) returns (v: Value)
      requires NamesOk() && WellTyped(prog) && (forall id | id in prog :: id < nextId)
      requires InstrOk(prog, ins) && !ins.Opaque?
      modifies this`prog, this`nextId, this`rank
      ensures v.Const? <==> AllConst(ins)
      ensures v.Const? ==> prog == old(prog) && nextId == old(nextId) && rank == old(rank)
      ensures v.Ref? ==>
              v.id >= old(nextId) && home(v.id) == home(at) && nextId == v.id + 1
              && prog == old(prog)[v.id := ins] && rank == old(rank)[v.id := r]
      ensures Built(prog, v, ins) && Typed(prog, v, ins.width)
      ensures TotalWidth(prog, nextId) == old(TotalWidth(prog, nextId)) + if v.Const? then 0 else ins.width
    {
      if AllConst(ins) {
        FoldTyped(prog, ins);
        v := Fold(prog, ins);
      } else {
        var k := supply(at, nextId);
        TotalInsert(prog, nextId, k, ins);
        v := Ref(k);
        ExtendsInstr(prog, prog[k := ins], ins);
        prog, rank := prog[k := ins], rank[k := r];
        nextId := k + 1;
      }
    }

    /** A rebuilt cast takes the old one's place on the worklist, joins it, or leaves it. */
    method UpdateWorklist(I: Id, res: Value)
      requires res.Ref? ==> res.id in prog && prog[res.id].Cast? && res.id !in worklist && res.id != I
      requires WorklistOk(prog, worklist)
      modifies this`worklist
      ensures WorklistOk(prog, worklist) && I !in worklist
      ensures forall id | id in worklist :: id in old(worklist) || res == Ref(id)
      ensures res.Ref? && IsTrunc(prog, res.id) ==> res.id in worklist
      ensures forall id | id in old(worklist) && id != I :: id in worklist
    {
      var isTrunc := res.Ref? && prog[res.id].cop.Trunc?;
      if I in worklist {
        var e :| 0 <= e < |worklist| && worklist[e] == I;
        ghost var was := worklist;
        if isTrunc {
          assert forall n | 0 <= n < |was| && n != e :: was[e := res.id][n] == was[n];
          assert was[e := res.id][e] == res.id;
          worklist := worklist[e := res.id];
        } else {
          worklist := worklist[..e] + worklist[e + 1..];
        }
      } else if isTrunc {
        worklist := worklist + [res.id];
      }
    }

    /** A node that is an extension from the new width is replaced by its source. */
    method ReuseSource(i: nat, m: nat, ghost j: Job, ghost made: set<Id>, ghost total0: nat)
      requires j.Ok() && i < |keys| && keys == j.keys && m == j.m && Making(j, prog, NewValues(info), NOTHING)
      requires Grown(j, prog, rank, NewValues(info), i) && keys[i] in prog && keys[i] in info
      requires IsSameWidthCast(prog, keys[i], m)
      requires WorklistClean(j, prog, worklist, i) && Account(j, made, i, total0, TotalWidth(prog, nextId))
      modifies this`info
      ensures Grown(j, prog, rank, NewValues(info), i + 1) && Making(j, prog, NewValues(info), NOTHING)
      ensures info.Keys == old(info).Keys
      ensures WorklistClean(j, prog, worklist, i + 1) && Account(j, made, i + 1, total0, TotalWidth(prog, nextId))
    {
      hide Grown, Built, WellTyped, Ranked, Job.Ok, Account, WorklistClean, NewValues, Making, TotalWidth,
           LoweredInstr, InstrOk;
      var I := keys[i];
      NodeFacts(j, prog, rank, NewValues(info), worklist, i);
      var src := prog[I].src;
      GrowSame(j, prog, rank, NewValues(info), i);
      MakingSame(j, prog, NewValues(info), I, src);
      AccountSame(j, made, i, total0, TotalWidth(prog, nextId));
      WorklistSkips(j, prog, worklist, i);
      SetNewValue(info, I, src);
      info := info[I := info[I].(newValue := Some(src))];
    }

    /** Asks the builder for the node at the new width. */
    method BuildNode(i: nat, m: nat, ghost j: Job, ghost made: set<Id>, ghost total0: nat)
      returns (res: Value, ghost made': set<Id>)
      requires j.Ok() && i < |keys| && keys == j.keys && m == j.m && Profitable(j.p0, j.t, j.keys, j.m)
      requires NamesOk() && j.home == home && Making(j, prog, NewValues(info), NOTHING)
      requires Grown(j, prog, rank, NewValues(info), i) && (forall id | id in prog :: id < nextId)
      requires keys[i] in prog && !IsSameWidthCast(prog, keys[i], m)
      requires WorklistClean(j, prog, worklist, i) && Account(j, made, i, total0, TotalWidth(prog, nextId))
      modifies this`prog, this`nextId, this`rank
      ensures (forall id | id in prog :: id < nextId) && Extends(old(prog), prog)
      ensures var nv := NewValues(info)[keys[i] := res];
              Grown(j, prog, rank, nv, i + 1) && Making(j, prog, nv, NOTHING)
      ensures Account(j, made', i + 1, total0, TotalWidth(prog, nextId))
      ensures res.Ref? ==> res.id in prog && res.id !in old(prog) && (old(prog)[keys[i]].Cast? <==> prog[res.id].Cast?)
      ensures nextId >= old(nextId) && (res.Ref? ==> res.id >= old(nextId))
      ensures forall id | id in prog && !(id in old(prog) && prog[id] == old(prog)[id]) :: res == Ref(id)
    {
      hide Grown, Built, WellTyped, Ranked, Job.Ok, Account, WorklistClean, Profitable, NewValues, Making,
           TruncInstCombiner.NamesOk, TotalWidth, LoweredInstr, InstrOk, AllConst;
      var I := keys[i];
      ghost var nv, p, rank', total := NewValues(info), prog, rank, TotalWidth(prog, nextId);
      NodeFacts(j, prog, rank, nv, worklist, i);
      var ins := LoweredInstr(prog, NewValues(info), m, prog[I]);
      LoweredKind(prog, nv, m, prog[I]);
      res := Build(ins, I, 2 * j.rank0[I]);
      if res.Const? {
        GrowFolded(j, p, rank', nv, i, res);
        MakingSame(j, p, nv, I, res);
        AccountSame(j, made, i, total0, total);
        made' := made;
      } else {
        GrowInserted(j, p, rank', nv, i, res.id);
        MakingInserted(j, p, nv, I, res.id, ins);
        AccountMade(j, made, i, total0, total);
        made' := made + {I};
      }
    }

    /** Rebuilds one node at the new width. */
    method ReduceNode(i: nat, m: nat, ghost j: Job, ghost made: set<Id>, ghost total0: nat, ghost w0: seq<Id>,
                      ghost n: Id)
      returns (ghost made': set<Id>)
      requires j.Ok() && i < |keys| && keys == j.keys && m == j.m && Profitable(j.p0, j.t, j.keys, j.m)
      requires n <= nextId && WorklistFollows(j, prog, w0, n, worklist, i, NOTHING)
      requires NamesOk() && j.home == home && Making(j, prog, NewValues(info), NOTHING)
      requires Grown(j, prog, rank, NewValues(info), i) && (forall id | id in prog :: id < nextId)
      requires forall id | id in keys :: id in info
      requires WorklistClean(j, prog, worklist, i) && Account(j, made, i, total0, TotalWidth(prog, nextId))
      modifies this`prog, this`nextId, this`rank, this`info, this`worklist
      ensures Grown(j, prog, rank, NewValues(info), i + 1) && (forall id | id in prog :: id < nextId)
      ensures Making(j, prog, NewValues(info), NOTHING)
      ensures forall id | id in keys :: id in info
      ensures WorklistClean(j, prog, worklist, i + 1) && Account(j, made', i + 1, total0, TotalWidth(prog, nextId))
      ensures n <= nextId && WorklistFollows(j, prog, w0, n, worklist, i + 1, NOTHING)
    {
      hide Grown, WellTyped, Job.Ok, Account, WorklistClean, Profitable, WorklistOk, NewValues, Making,
           TruncInstCombiner.NamesOk, TotalWidth, LoweredInstr, InstrOk, WorklistFollows;
      var I := keys[i];
      ghost var p, w := prog, worklist;
      NodeFacts(j, prog, rank, NewValues(info), worklist, i);
      var node := prog[I];
      if node.Cast? && WidthOf(prog, node.src) == m {
        ReuseSource(i, m, j, made, total0);
        FollowsSkip(j, p, w0, n, w, i);
        return made;
      }
      var res;
      res, made' := BuildNode(i, m, j, made, total0);
      WorklistExtends(p, prog, worklist);
      if node.Cast? {
        UpdateWorklist(I, res);
      } else {
        NotInWorklist(p, worklist, I);
      }
      WorklistUpdated(j, p, w, i, prog, worklist, res);
      FollowsUpdate(j, p, w0, n, w, i, prog, worklist, res);
      SetNewValue(info, I, res);
      info := info[I := info[I].(newValue := Some(res))];
    }

    /** The trunc's operand at its new width, cut down to the trunc's own width if that is smaller. */
    method ReduceRoot(m: nat, ghost j: Job) returns (res: Value)
      requires j.Ok() && m == j.m && current == j.t && keys == j.keys
      requires NamesOk() && j.home == home && Making(j, prog, NewValues(info), NOTHING)
      requires Grown(j, prog, rank, NewValues(info), |j.keys|) && (forall id | id in prog :: id < nextId)
      requires WorklistClean(j, prog, worklist, |j.keys|)
      modifies this`prog, this`nextId, this`rank
      ensures Grown(j, prog, rank, NewValues(info), |j.keys|) && (forall id | id in prog :: id < nextId)
      ensures RootDone(j, prog, rank, NewValues(info), res) && Making(j, prog, NewValues(info), res)
      ensures WorklistClean(j, prog, worklist, |j.keys|)
      ensures nextId >= old(nextId)
      ensures forall id | id in prog && !(id in old(prog) && prog[id] == old(prog)[id]) ::
                res == Ref(id) && id >= old(nextId)
      ensures TotalWidth(prog, nextId)
           <= old(TotalWidth(prog, nextId)) + if m == j.p0[j.t].width then 0 else j.p0[j.t].width
    {
      hide Grown, Built, WellTyped, Ranked, Job.Ok, WorklistClean, CleanInstr, NewValues, Making,
           TruncInstCombiner.NamesOk, TotalWidth, InstrOk, Kept0, FreshClean;
      ghost var p, rank', nv := prog, rank, NewValues(info);
      GrownFacts(j, prog, rank, nv, |keys|);
      RootFits(j, prog, rank, nv);
      KeysPresent(j, prog, rank);
      res := ReducedOperand(NewValues(info), Source(), m);
      MakingExtra(j, p, nv, res, prog[current]);
      if m != prog[current].width {
        var ins := Cast(Trunc, res, prog[current].width);
        res := Build(ins, current, 2 * j.rank0[j.t]);
        MakingExtra(j, p, nv, res, ins);
        if res.Ref? {
          GrowExtra(j, p, rank', nv, res.id, ins, 2 * j.rank0[j.t]);
        }
        WorklistCleanExtends(j, p, prog, worklist, |keys|);
      }
    }

    /** Drops old nodes nothing uses any more, users before their operands. */
    method EraseOldDag(ghost j: Job, ghost nv: map<Id, Value>, ghost res: Value) returns (ghost gone: set<Id>)
      requires j.Ok() && keys == j.keys && Profitable(j.p0, j.t, j.keys, j.m)
      requires Edited(j, prog, rank, nv, res) && (forall id | id in prog :: id < nextId)
      requires forall I | I in keys :: I in prog
      requires WorklistOk(prog, worklist) && forall I | I in keys :: I !in worklist
      modifies this`prog
      ensures Edited(j, prog, rank, nv, res) && (forall id | id in prog :: id < nextId)
      ensures WorklistOk(prog, worklist)
      ensures forall id | id in prog :: id in old(prog) && prog[id] == old(prog)[id]
      ensures TotalWidth(prog, nextId) + WidthOf(j.p0, j.p0[j.t].src) * |gone| == old(TotalWidth(prog, nextId))
      ensures forall I | I in keys && !UsedOutside(j.p0, j.t, j.keys, I) :: I in gone
      ensures forall I | I in keys :: I in gone <==> I !in prog
    {
      hide Edited, UsedOutside, Job.Ok, WorklistOk, Profitable, IsDag, HasUses;
      gone := {};
      JobTrunc(j);
      ghost var n := WidthOf(j.p0, j.p0[j.t].src);
      ghost var total := TotalWidth(prog, nextId);
      var i := |keys|;
      while i > 0
        invariant 0 <= i <= |keys| && Edited(j, prog, rank, nv, res) && WorklistOk(prog, worklist)
        invariant forall id | id in prog :: id < nextId
        invariant forall id | id in prog :: id in old(prog) && prog[id] == old(prog)[id]
        invariant forall x | 0 <= x < i :: keys[x] in prog
        invariant forall x | i <= x < |keys| :: keys[x] in prog ==> UsedOutside(j.p0, j.t, j.keys, keys[x])
        invariant forall x | 0 <= x < |keys| :: keys[x] in gone <==> keys[x] !in prog
        invariant forall id | id in gone :: id in keys
        invariant TotalWidth(prog, nextId) + n * |gone| == total
      {
        i := i - 1;
        var I := keys[i];
        KeyFacts(j, prog, rank, nv, res, i);
        if !HasUses(prog, I) {
          EraseOne(j, prog, rank, nv, res, I);
          TotalRemove(prog, nextId, I);
          WorklistErase(prog, worklist, I);
          assert n * (|gone| + 1) == n * |gone| + n;
          prog := prog - {I};
          gone := gone + {I};
        } else {
          StillUsed(j, prog, rank, nv, res, i);
        }
      }
    }

    /** Rebuilds the dag at width m, replaces the trunc, and erases what is no longer used. */
    method ReduceExpressionDag(m: nat) returns (ghost res: Value)
      requires NamesOk() && Valid()
      requires Reducible(oracle, prog, current, keys, m) && Profitable(prog, current, keys, m)
      requires info.Keys == (set id | id in keys) && forall id | id in info :: info[id].newValue.None?
      requires WorklistOk(prog, worklist) && current !in worklist
      modifies this`prog, this`nextId, this`rank, this`info, this`worklist
      ensures WellTyped(prog) && Ranked(prog, rank) && (forall id | id in prog :: id < nextId)
      ensures WorklistOk(prog, worklist)
      ensures Implements(oracle, AtUses, home, old(prog), prog)
      ensures ContextSuffices(home, old(prog), current, keys, m, prog)
         <==> DivisorsOk(home, old(prog), old(rank), current, keys, m)
      ensures DividesWithCasts(home, old(prog)) ==>
              DividesWithCasts(home, prog) && Implements(oracle, AtContext, home, old(prog), prog)
      ensures TotalWidth(prog, nextId) < old(TotalWidth(prog, nextId))
      ensures current !in prog
      ensures forall I | I in keys :: I in prog <==> UsedOutside(old(prog), current, keys, I)
      ensures nextId >= old(nextId) && forall id | id in worklist :: id in old(worklist) || id >= old(nextId)
      ensures forall id | id in old(worklist) :: id in worklist || id in keys
      ensures forall id | IsTrunc(prog, id) && !IsTrunc(old(prog), id) :: id in worklist || res == Ref(id)
    {
      hide Grown, UsedOutside, Built, Shape, WellTyped, Ranked, Account, WorklistClean, CleanInstr, WorklistOk, IsDag,
           SideConditions, Implements, RootDone, Rewritten, Added, Making, FreshClean, DivisorsOk, ContextSuffices,
           DividesWithCasts, TruncInstCombiner.NamesOk, WorklistFollows;
      ghost var j := Job(home, prog, rank, current, keys, m);
      ghost var total0, made := TotalWidth(prog, nextId), {};
      GrowStart(j);
      StartFacts(j, worklist, info, total0);
      MakingStart(j);
      ghost var w0, n := worklist, nextId;
      FollowsStart(j, w0, n);
      rank := DoubledRank(rank);
      for i := 0 to |keys|
        invariant Grown(j, prog, rank, NewValues(info), i) && forall id | id in prog :: id < nextId
        invariant forall id | id in keys :: id in info
        invariant Making(j, prog, NewValues(info), NOTHING)
        invariant WorklistClean(j, prog, worklist, i) && Account(j, made, i, total0, TotalWidth(prog, nextId))
        invariant n <= nextId && WorklistFollows(j, prog, w0, n, worklist, i, NOTHING)
      {
        made := ReduceNode(i, m, j, made, total0, w0, n);
      }
      ghost var total1, nv := TotalWidth(prog, nextId), NewValues(info);
      ghost var grown := prog;
      var root := ReduceRoot(m, j);
      res := root;
      FollowsExtra(j, grown, w0, n, worklist, prog, res);
      grown := prog;
      ReplaceTrunc(j, prog, rank, nv, res);
      ReplaceFacts(j, prog, rank, nv, res, worklist, nextId);
      prog := ReplaceAllUses(prog, current, root);
      prog := prog - {current};
      FollowsReplace(j, grown, w0, n, worklist, res, prog);
      grown := prog;
      ghost var gone := EraseOldDag(j, nv, res);
      FollowsErase(j, grown, w0, n, worklist, res, prog);
      FollowsAtLast(j, prog, rank, nv, w0, n, worklist, res);
      WidthDrops(j, made, gone, total0, total1, TotalWidth(prog, nextId));
      EditedFacts(oracle, j, prog, rank, nv, res);
    }

    /** Puts every trunc on the worklist. */
    method CollectTruncs(instructions: seq<Id>)
      requires Distinct(instructions) && worklist == []
      modifies this`worklist
      ensures WorklistOk(prog, worklist)
      ensures forall id :: id in worklist <==> id in instructions && IsTrunc(prog, id)
    {
      hide IsTrunc;
      for i := 0 to |instructions|
        invariant WorklistOk(prog, worklist)
        invariant forall id :: id in worklist <==> id in instructions[..i] && IsTrunc(prog, id)
      {
        assert instructions[i] !in instructions[..i];
        assert instructions[..i + 1] == instructions[..i] + [instructions[i]];
        if IsTrunc(prog, instructions[i]) {
          worklist := worklist + [instructions[i]];
        }
      }
      assert instructions[..|instructions|] == instructions;
    }

    /** Runs the reduction on every trunc among the reachable instructions, given in block order. */
    method Run(instructions: seq<Id>) returns (changed: bool, ghost visits: seq<Visit>)
      requires NamesOk() && WellTyped(prog) && Ranked(prog, rank) && (forall id | id in prog :: id < nextId)
      requires Distinct(instructions) && worklist == []
      modifies this
      ensures WellTyped(prog) && Ranked(prog, rank)
      ensures Implements(oracle, AtUses, home, old(prog), prog)
      ensures DividesWithCasts(home, old(prog)) ==> Implements(oracle, AtContext, home, old(prog), prog)
      ensures if changed then TotalWidth(prog, nextId) < old(TotalWidth(prog, nextId)) else prog == old(prog)
      ensures worklist == []
      ensures changed <==> exists t :: t in instructions && Improvable(oracle, old(prog), t, legal)
      ensures History(oracle, legal, old(prog), visits, prog)
      ensures forall t | t in instructions && IsTrunc(old(prog), t) :: DealtWith(visits, t)
      ensures forall t | IsTrunc(prog, t) && !IsTrunc(old(prog), t) :: DealtWith(visits, t) || IsResult(visits, t)
    {
      hide WellTyped, Ranked, Implements, Reducible, Profitable, IsTrunc, Chosen, ReducesTo, NoWidth, IsDag,
           DividesWithCasts, DivisorsOk, ContextSuffices, TruncInstCombiner.NamesOk, TotalWidth, Distinct, History,
           Tracked, VisitOk, WorklistOk, Improvable, DealtWith, IsResult, UsedOutside, SideConditions;
      changed, visits := false, [];
      CollectTruncs(instructions);
      ImplementsItself(oracle, AtUses, home, prog, rank);
      ImplementsItself(oracle, AtContext, home, prog, rank);
      OnlyTruncsImprove(oracle, prog, legal);
      RunStarts(oracle, legal, prog, instructions, worklist, nextId);
      while worklist != []
        invariant WellTyped(prog) && Ranked(prog, rank) && (forall id | id in prog :: id < nextId)
        invariant WorklistOk(prog, worklist)
        invariant Implements(oracle, AtUses, home, old(prog), prog)
        invariant DividesWithCasts(home, old(prog)) ==>
                    DividesWithCasts(home, prog) && Implements(oracle, AtContext, home, old(prog), prog)
        invariant if changed then TotalWidth(prog, nextId) < old(TotalWidth(prog, nextId))
                  else prog == old(prog) && nextId == old(nextId)
        invariant !changed ==> forall t | t in worklist :: t in instructions
        invariant !changed ==> forall t | t in instructions && t !in worklist :: !Improvable(oracle, prog, t, legal)
        invariant changed ==> exists t :: t in instructions && Improvable(oracle, old(prog), t, legal)
        invariant Tracked(oracle, legal, old(prog), instructions, visits, prog, worklist, nextId)
        decreases TotalWidth(prog, nextId), |worklist|
      {
        PopTrunc(prog, worklist);
        current := worklist[|worklist| - 1];
        worklist := worklist[..|worklist| - 1];
        ghost var before, rank', rest, n := prog, rank, worklist, nextId;
        var width := GetBestTruncatedType();
        ghost var dag := if width.Some? then keys else [];
        assert width.Some? ==> IsDag(before, before[current].src, dag);
        CurrentImproves(oracle, before, current, legal, width);
        ghost var result := NOTHING;
        if width.Some? {
          result := ReduceExpressionDag(width.value);
          ImplementsTransitive(oracle, AtUses, home, old(prog), before, rank', prog);
          if DividesWithCasts(home, old(prog)) {
            ImplementsTransitive(oracle, AtContext, home, old(prog), before, rank', prog);
          }
          changed := true;
        }
        ghost var visit := Visit(current, before, prog, dag, result);
        if width.Some? {
          ReducedVisit(oracle, legal, visit, width.value);
        } else {
          IdleVisit(oracle, legal, visit);
        }
        NextTracked(oracle, legal, old(prog), instructions, visits, rest, n, visit, worklist, nextId);
        visits := visits + [visit];
      }
      TrackEnds(oracle, legal, old(prog), instructions, visits, prog, nextId);
    }
  }

  lemma RunStarts(o: Oracle, legal: seq<nat>, p: Program, instructions: seq<Id>, w: seq<Id>, n: Id)
    requires forall id :: id in w <==> id in instructions && IsTrunc(p, id)
    ensures Tracked(o, legal, p, instructions, [], p, w, n)
  {
  }

  lemma IdleVisit(o: Oracle, legal: seq<nat>, v: Visit)
    requires IsTrunc(v.before, v.t) && v.after == v.before && v.dag == []
    requires NoWidth(o, v.before, v.t, legal)
    ensures VisitOk(o, legal, v)
  {
  }

  lemma TrackEnds(o: Oracle, legal: seq<nat>, p: Program, instructions: seq<Id>, visits: seq<Visit>, q: Program, n: Id)
    requires Tracked(o, legal, p, instructions, visits, q, [], n)
    ensures History(o, legal, p, visits, q)
    ensures forall t | t in instructions && IsTrunc(p, t) :: DealtWith(visits, t)
    ensures forall t | IsTrunc(q, t) && !IsTrunc(p, t) :: DealtWith(visits, t) || IsResult(visits, t)
  {
  }
}
