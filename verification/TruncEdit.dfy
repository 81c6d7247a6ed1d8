/** The edits of one reduction: growing the new dag, replacing the trunc, erasing the old dag. */
module TruncEdit {
  import opened Collections
  import opened Ir
  import opened TruncDag
  import opened TruncRewrite

  /** The program before the reduction of the dag `keys` below trunc `t` to width m. */
  datatype Job = Job(home: Id -> nat, p0: Program, rank0: map<Id, nat>, t: Id, keys: seq<Id>, m: nat) {
    ghost predicate Ok() {
      WellTyped(p0) && Ranked(p0, rank0) && Shape(p0, t, keys, m)
    }
  }

  /** `v` may be used by anything ranked above r, and survives the erasing of the old dag. */
  predicate Clean(j: Job, p: Program, rank: map<Id, nat>, v: Value, r: nat) {
    v.Ref? ==> v.id in p && v.id in rank && rank[v.id] <= r && v.id != j.t && v.id !in j.keys
  }

  ghost predicate CleanInstr(j: Job, ins: Instr) {
    !ins.Opaque? && forall o | o in Operands(ins) && o.Ref? :: o.id != j.t && o.id !in j.keys
  }

  ghost predicate Kept0(j: Job, p: Program, rank: map<Id, nat>) {
    forall id | id in j.p0 :: id in p && p[id] == j.p0[id] && id in rank && id in j.rank0
      && rank[id] == 2 * j.rank0[id] + 1
  }

  ghost predicate FreshClean(j: Job, p: Program) {
    forall id | id in p && id !in j.p0 :: CleanInstr(j, p[id])
  }

  ghost predicate NodeDone(j: Job, p: Program, rank: map<Id, nat>, nv: map<Id, Value>, I: Id) {
    I in j.p0 && I in nv && I in j.rank0 && Lowered(j.p0, p, nv, j.m, I) && Clean(j, p, rank, nv[I], 2 * j.rank0[I])
  }

  function Firsts(keys: seq<Id>, i: nat): set<Id>
    requires i <= |keys|
  {
    set I | I in keys[..i]
  }

  ghost predicate NodesDone(j: Job, p: Program, rank: map<Id, nat>, nv: map<Id, Value>, i: nat)
    requires i <= |j.keys|
  {
    forall I | I in j.keys[..i] :: NodeDone(j, p, rank, nv, I)
  }

  /** The first i nodes of the dag have been rebuilt; the old program is still all there. */
  ghost predicate Grown(j: Job, p: Program, rank: map<Id, nat>, nv: map<Id, Value>, i: nat)
    requires i <= |j.keys|
  {
    WellTyped(p) && Ranked(p, rank) && Kept0(j, p, rank) && FreshClean(j, p)
    && nv.Keys == Firsts(j.keys, i) && NodesDone(j, p, rank, nv, i)
  }

  /** Every new instruction is a rebuilt node, or `extra`, and stands where its node stands. */
  ghost predicate Making(j: Job, p: Program, nv: map<Id, Value>, extra: Value) {
    OnlyMade(j.p0, p, nv, extra) && forall I | I in nv :: I in j.keys && Inserted(j.home, j.p0, nv, j.m, I)
  }

  /** Stands for the absence of an extra instruction. */
  const NOTHING: Value := Const(1, Poison)

  lemma MakingStart(j: Job)
    ensures Making(j, j.p0, map[], NOTHING)
  {
  }

  lemma MakingSame(j: Job, p: Program, nv: map<Id, Value>, I: Id, v: Value)
    requires Making(j, p, nv, NOTHING) && I in j.keys && I !in nv && (v.Const? || IsSameWidthCast(j.p0, I, j.m))
    ensures Making(j, p, nv[I := v], NOTHING)
  {
    forall id | id in p && id !in j.p0 ensures Made(nv[I := v], id) {
      var J :| J in nv && nv[J] == Ref(id);
      assert nv[I := v][J] == Ref(id);
    }
    forall J | J in nv[I := v] ensures J in j.keys && Inserted(j.home, j.p0, nv[I := v], j.m, J) {
      assert J != I ==> Inserted(j.home, j.p0, nv, j.m, J);
    }
  }

  lemma MakingInserted(j: Job, p: Program, nv: map<Id, Value>, I: Id, k: Id, ins: Instr)
    requires Making(j, p, nv, NOTHING) && I in j.keys && I !in nv && k !in j.p0 && j.home(k) == j.home(I)
    ensures Making(j, p[k := ins], nv[I := Ref(k)], NOTHING)
  {
    var nv' := nv[I := Ref(k)];
    forall id | id in p[k := ins] && id !in j.p0 ensures Made(nv', id) {
      if id == k {
        assert nv'[I] == Ref(id);
      } else {
        assert Made(nv, id);
        var J :| J in nv && nv[J] == Ref(id);
        assert nv'[J] == Ref(id);
      }
    }
    forall J | J in nv' ensures J in j.keys && Inserted(j.home, j.p0, nv', j.m, J) {
      assert J != I ==> Inserted(j.home, j.p0, nv, j.m, J);
    }
  }

  lemma MakingExtra(j: Job, p: Program, nv: map<Id, Value>, v: Value, ins: Instr)
    requires Making(j, p, nv, NOTHING)
    ensures Making(j, p, nv, v)
    ensures v.Ref? ==> Making(j, p[v.id := ins], nv, v)
  {
  }

  function DoubledRank(rank0: map<Id, nat>): map<Id, nat> {
    map id | id in rank0 :: 2 * rank0[id] + 1
  }

  lemma GrowStart(j: Job)
    requires j.Ok()
    ensures Grown(j, j.p0, DoubledRank(j.rank0), map[], 0)
  {
    hide Shape;
  }

  lemma JobNode(j: Job, I: Id)
    requires j.Ok() && I in j.keys
    ensures I in j.p0 && I in j.rank0 && j.t in j.rank0 && j.rank0[I] < j.rank0[j.t]
    ensures j.p0[I].width == WidthOf(j.p0, j.p0[j.t].src) > j.m >= 1
    ensures Supported(j.p0[I]) && InstrOk(j.p0, j.p0[I])
  {
    var src := j.p0[j.t].src;
    assert InstrOk(j.p0, j.p0[j.t]);
    assert src in Operands(j.p0[j.t]);
    DagWidth(j.p0, src, j.keys, I);
    var path :| PathTo(j.p0, path, src.id, I);
    PathRank(j.p0, j.rank0, path, src.id, I);
  }

  /** An operand of a node that is not a dag edge lies outside the dag, below the trunc. */
  lemma OutsideOperand(j: Job, I: Id, o: Value)
    requires j.Ok() && I in j.keys && I in j.p0 && o.Ref?
    requires (j.p0[I].Cast? && o == j.p0[I].src) || (j.p0[I].Select? && o == j.p0[I].cond)
    ensures o.id in j.p0 && o.id in j.rank0 && I in j.rank0 && j.rank0[o.id] < j.rank0[I]
    ensures o.id != j.t && o.id !in j.keys
  {
    hide Shape;
    JobNode(j, I);
    assert o in Operands(j.p0[I]);
    if o.id in j.keys { JobNode(j, o.id); }
  }

  lemma EdgeOperand(j: Job, i: nat, o: Value)
    requires j.Ok() && i < |j.keys| && j.keys[i] in j.p0 && o in Relevant(j.p0[j.keys[i]]) && o.Ref?
    ensures o.id in j.keys[..i] && o.id in j.keys && o.id in j.rank0 && j.keys[i] in j.rank0
    ensures j.rank0[o.id] < j.rank0[j.keys[i]]
  {
    var I := j.keys[i];
    assert Edge(j.p0, I, o.id);
    assert I in j.keys;
    assert o in Operands(j.p0[I]);
    assert o.id in j.keys[..i];
  }

  lemma ReducedOperandFits(j: Job, p: Program, rank: map<Id, nat>, nv: map<Id, Value>, i: nat, o: Value)
    requires j.Ok() && i < |j.keys| && Grown(j, p, rank, nv, i)
    requires j.keys[i] in j.p0 && j.keys[i] in j.rank0 && o in Relevant(j.p0[j.keys[i]])
    ensures OperandFits(j, p, rank, nv, j.keys[i], o)
  {
    hide Ranked, Kept0, FreshClean, Shape, Built;
    var I := j.keys[i];
    assert I in j.keys;
    JobNode(j, I);
    if o.Ref? {
      EdgeOperand(j, i, o);
      assert NodeDone(j, p, rank, nv, o.id);
    }
  }

  /** The instruction a node is lowered to is well formed in the grown program. */
  lemma LoweredFits(j: Job, p: Program, rank: map<Id, nat>, nv: map<Id, Value>, i: nat)
    requires j.Ok() && i < |j.keys| && Grown(j, p, rank, nv, i)
    ensures j.keys[i] in j.p0 && j.keys[i] in j.rank0 && LoweredOk(j, p, rank, nv, j.keys[i])
  {
    hide Shape, Grown, LoweredOk;
    var I := j.keys[i];
    assert I in j.keys;
    JobNode(j, I);
    GrownFacts(j, p, rank, nv, i);
    match j.p0[I]
    case Cast(_, src, _) => CastFits(j, p, rank, nv, I);
    case Bin(_, _, a, b, _) =>
      ReducedOperandFits(j, p, rank, nv, i, a);
      ReducedOperandFits(j, p, rank, nv, i, b);
      BinFits(j, p, rank, nv, I);
    case Select(c, a, b, _) =>
      ReducedOperandFits(j, p, rank, nv, i, a);
      ReducedOperandFits(j, p, rank, nv, i, b);
      SelectFits(j, p, rank, nv, I);
    case Opaque(_, _) => assert false;
  }

  ghost predicate LoweredOk(j: Job, p: Program, rank: map<Id, nat>, nv: map<Id, Value>, I: Id)
    requires I in j.p0 && I in j.rank0
  {
    var ins := LoweredInstr(j.p0, nv, j.m, j.p0[I]);
    (j.p0[I].Cast? ==>
     Clean(j, p, rank, j.p0[I].src, 2 * j.rank0[I])
     && Typed(p, j.p0[I].src, WidthOf(j.p0, j.p0[I].src)))
    && (!(j.p0[I].Cast? && WidthOf(j.p0, j.p0[I].src) == j.m) ==> InstrOk(p, ins))
    && ins.width == j.m && CleanInstr(j, ins)
    && forall o | o in Operands(ins) && o.Ref? :: o.id in p && o.id in rank && rank[o.id] < 2 * j.rank0[I]
  }

  lemma CastFits(j: Job, p: Program, rank: map<Id, nat>, nv: map<Id, Value>, I: Id)
    requires j.Ok() && I in j.keys && I in j.p0 && I in j.rank0 && j.p0[I].Cast? && Kept0(j, p, rank)
    ensures LoweredOk(j, p, rank, nv, I)
  {
    hide WellTyped, Ranked, Shape;
    JobNode(j, I);
    if j.p0[I].src.Ref? { OutsideOperand(j, I, j.p0[I].src); }
  }

  ghost predicate OperandFits(j: Job, p: Program, rank: map<Id, nat>, nv: map<Id, Value>, I: Id, o: Value)
    requires I in j.rank0
  {
    Typed(p, ReducedOperand(nv, o, j.m), j.m)
    && (j.rank0[I] > 0 || o.Const?)
    && (o.Ref? ==> Clean(j, p, rank, ReducedOperand(nv, o, j.m), 2 * j.rank0[I] - 1))
  }

  lemma BinFits(j: Job, p: Program, rank: map<Id, nat>, nv: map<Id, Value>, I: Id)
    requires I in j.p0 && I in j.rank0 && j.p0[I].Bin? && j.m >= 1
    requires OperandFits(j, p, rank, nv, I, j.p0[I].a) && OperandFits(j, p, rank, nv, I, j.p0[I].b)
    ensures LoweredOk(j, p, rank, nv, I)
  {
  }

  lemma SelectFits(j: Job, p: Program, rank: map<Id, nat>, nv: map<Id, Value>, I: Id)
    requires j.Ok() && I in j.keys && I in j.p0 && I in j.rank0 && j.p0[I].Select? && Kept0(j, p, rank)
    requires OperandFits(j, p, rank, nv, I, j.p0[I].a) && OperandFits(j, p, rank, nv, I, j.p0[I].b)
    ensures LoweredOk(j, p, rank, nv, I)
  {
    hide WellTyped, Ranked, Shape;
    JobNode(j, I);
    var c := j.p0[I].cond;
    if c.Ref? { OutsideOperand(j, I, c); }
    assert Clean(j, p, rank, c, 2 * j.rank0[I]) && Typed(p, c, 1);
  }

  lemma GrownFacts(j: Job, p: Program, rank: map<Id, nat>, nv: map<Id, Value>, i: nat)
    requires i <= |j.keys| && Grown(j, p, rank, nv, i)
    ensures WellTyped(p) && Ranked(p, rank) && Kept0(j, p, rank) && FreshClean(j, p)
  {
  }

  // ----- one node more -----

  /** q is p with more instructions. */
  predicate Extends(p: Program, q: Program) {
    forall id | id in p :: id in q && q[id] == p[id]
  }

  lemma ExtendsValue(p: Program, q: Program, v: Value)
    requires Extends(p, q) && ValueOk(p, v)
    ensures ValueOk(q, v) && WidthOf(q, v) == WidthOf(p, v)
  {
  }

  lemma ExtendsInstr(p: Program, q: Program, ins: Instr)
    requires Extends(p, q) && InstrOk(p, ins)
    ensures InstrOk(q, ins)
  {
    forall v | ValueOk(p, v) ensures ValueOk(q, v) && WidthOf(q, v) == WidthOf(p, v) {
      ExtendsValue(p, q, v);
    }
  }

  lemma ExtendsBuilt(p: Program, q: Program, v: Value, ins: Instr)
    requires Extends(p, q) && Built(p, v, ins)
    ensures Built(q, v, ins)
  {
    ExtendsInstr(p, q, ins);
    if v.Const? {
      match ins
      case Cast(_, src, _) => assert src in Operands(ins);
      case _ =>
    }
  }

  lemma InsertTyped(p: Program, k: Id, ins: Instr)
    requires WellTyped(p) && k !in p && InstrOk(p, ins)
    ensures WellTyped(p[k := ins])
  {
    var q := p[k := ins];
    forall id | id in q ensures InstrOk(q, q[id]) {
      if id == k { ExtendsInstr(p, q, ins); } else { ExtendsInstr(p, q, p[id]); }
    }
  }

  lemma InsertRanked(p: Program, rank: map<Id, nat>, k: Id, ins: Instr, r: nat)
    requires WellTyped(p) && Ranked(p, rank) && k !in p && InstrOk(p, ins)
    requires forall o | o in Operands(ins) && o.Ref? :: o.id in p && o.id in rank && rank[o.id] < r
    ensures Ranked(p[k := ins], rank[k := r])
  {
    var q, rank' := p[k := ins], rank[k := r];
    forall id, o | id in q && o in Operands(q[id]) && o.Ref?
      ensures o.id in rank' && rank'[o.id] < rank'[id]
    {
      if id != k {
        TypedAt(p, id);
        OperandInProgram(p, id, o);
      }
    }
  }

  lemma OperandInProgram(p: Program, id: Id, o: Value)
    requires WellTyped(p) && id in p && o in AllOperands(p[id]) && o.Ref?
    ensures o.id in p
  {
    assert InstrOk(p, p[id]);
  }

  lemma KeepNode(j: Job, p: Program, rank: map<Id, nat>, nv: map<Id, Value>, i: nat, q: Program, rank': map<Id, nat>,
                 v: Value, J: Id)
    requires j.Ok() && i < |j.keys| && Grown(j, p, rank, nv, i) && J in j.keys[..i]
    requires Extends(p, q) && forall id | id in p && id in rank :: id in rank' && rank'[id] == rank[id]
    ensures NodeDone(j, q, rank', nv[j.keys[i] := v], J)
  {
    hide WellTyped, Ranked, Kept0, FreshClean, Built;
    var I := j.keys[i];
    var nv' := nv[I := v];
    assert NodeDone(j, p, rank, nv, J) && J in nv;
    var n :| 0 <= n < i && j.keys[n] == J;
    assert I !in nv by { assert Distinct(j.keys); }
    assert J != I && nv'[J] == nv[J];
    ExtendsValue(p, q, nv[J]);
    if !(j.p0[J].Cast? && WidthOf(j.p0, j.p0[J].src) == j.m) {
      SameLowered(j, nv, i, v, n);
      ExtendsBuilt(p, q, nv[J], LoweredInstr(j.p0, nv, j.m, j.p0[J]));
    }
  }

  lemma SameLowered(j: Job, nv: map<Id, Value>, i: nat, v: Value, n: nat)
    requires j.Ok() && n < i < |j.keys| && nv.Keys == Firsts(j.keys, i) && j.keys[n] in j.p0
    ensures LoweredInstr(j.p0, nv[j.keys[i] := v], j.m, j.p0[j.keys[n]]) == LoweredInstr(j.p0, nv, j.m, j.p0[j.keys[n]])
  {
    hide WellTyped, Ranked;
    var J := j.keys[n];
    forall o | o in Relevant(j.p0[J]) && o.Ref? ensures o.id != j.keys[i] {
      assert Edge(j.p0, J, o.id);
      assert o.id in j.keys[..n];
    }
    if !j.p0[J].Cast? && !j.p0[J].Opaque? {
      assert j.p0[J].a in Relevant(j.p0[J]) && j.p0[J].b in Relevant(j.p0[J]);
    }
  }

  lemma ExtendNodes(j: Job, p: Program, rank: map<Id, nat>, nv: map<Id, Value>, i: nat, q: Program,
                    rank': map<Id, nat>, v: Value)
    requires j.Ok() && i < |j.keys| && Grown(j, p, rank, nv, i)
    requires Extends(p, q) && forall id | id in p && id in rank :: id in rank' && rank'[id] == rank[id]
    requires NodeDone(j, q, rank', nv[j.keys[i] := v], j.keys[i])
    ensures nv[j.keys[i] := v].Keys == Firsts(j.keys, i + 1)
    ensures NodesDone(j, q, rank', nv[j.keys[i] := v], i + 1)
  {
    hide NodeDone, WellTyped, Ranked, Kept0, FreshClean, Job.Ok;
    var upto := j.keys[..i + 1];
    assert upto == j.keys[..i] + [j.keys[i]];
    forall J | J in upto ensures NodeDone(j, q, rank', nv[j.keys[i] := v], J) {
      if J in j.keys[..i] { KeepNode(j, p, rank, nv, i, q, rank', v, J); }
    }
  }

  lemma LoweredIgnoresSelf(j: Job, nv: map<Id, Value>, i: nat, v: Value)
    requires j.Ok() && i < |j.keys| && nv.Keys == Firsts(j.keys, i) && j.keys[i] in j.p0
    ensures LoweredInstr(j.p0, nv[j.keys[i] := v], j.m, j.p0[j.keys[i]]) == LoweredInstr(j.p0, nv, j.m, j.p0[j.keys[i]])
  {
    hide WellTyped, Ranked;
    var J := j.keys[i];
    forall o | o in Relevant(j.p0[J]) && o.Ref? ensures o.id != J {
      assert Edge(j.p0, J, o.id);
      assert o.id in j.keys[..i];
    }
    if !j.p0[J].Cast? && !j.p0[J].Opaque? {
      assert j.p0[J].a in Relevant(j.p0[J]) && j.p0[J].b in Relevant(j.p0[J]);
    }
  }

  /** A leaf whose source already has width m is simply replaced by the source. */
  lemma GrowSame(j: Job, p: Program, rank: map<Id, nat>, nv: map<Id, Value>, i: nat)
    requires j.Ok() && i < |j.keys| && Grown(j, p, rank, nv, i)
    requires j.keys[i] in j.p0 && j.p0[j.keys[i]].Cast? && WidthOf(j.p0, j.p0[j.keys[i]].src) == j.m
    ensures Grown(j, p, rank, nv[j.keys[i] := j.p0[j.keys[i]].src], i + 1)
  {
    hide Built, WellTyped, Ranked, Kept0, FreshClean, Shape;
    LoweredFits(j, p, rank, nv, i);
    ExtendNodes(j, p, rank, nv, i, p, rank, j.p0[j.keys[i]].src);
  }

  /** The builder folded the node to a constant. */
  lemma GrowFolded(j: Job, p: Program, rank: map<Id, nat>, nv: map<Id, Value>, i: nat, v: Value)
    requires j.Ok() && i < |j.keys| && Grown(j, p, rank, nv, i) && j.keys[i] in j.p0
    requires !(j.p0[j.keys[i]].Cast? && WidthOf(j.p0, j.p0[j.keys[i]].src) == j.m)
    requires v.Const? && Built(p, v, LoweredInstr(j.p0, nv, j.m, j.p0[j.keys[i]])) && Typed(p, v, j.m)
    ensures Grown(j, p, rank, nv[j.keys[i] := v], i + 1)
  {
    hide Built, WellTyped, Ranked, Kept0, FreshClean, Shape;
    LoweredFits(j, p, rank, nv, i);
    LoweredIgnoresSelf(j, nv, i, v);
    ExtendNodes(j, p, rank, nv, i, p, rank, v);
  }

  /** The node's replacement was inserted under the fresh name k, ranked just below the node. */
  lemma GrowInserted(j: Job, p: Program, rank: map<Id, nat>, nv: map<Id, Value>, i: nat, k: Id)
    requires j.Ok() && i < |j.keys| && Grown(j, p, rank, nv, i) && j.keys[i] in j.p0 && j.keys[i] in j.rank0
    requires !(j.p0[j.keys[i]].Cast? && WidthOf(j.p0, j.p0[j.keys[i]].src) == j.m)
    requires k !in p && !AllConst(LoweredInstr(j.p0, nv, j.m, j.p0[j.keys[i]]))
    ensures Grown(j, p[k := LoweredInstr(j.p0, nv, j.m, j.p0[j.keys[i]])], rank[k := 2 * j.rank0[j.keys[i]]],
                  nv[j.keys[i] := Ref(k)], i + 1)
  {
    hide Shape, NodeDone, WellTyped, Ranked;
    var I := j.keys[i];
    var ins := LoweredInstr(j.p0, nv, j.m, j.p0[I]);
    var q, rank' := p[k := ins], rank[k := 2 * j.rank0[I]];
    LoweredFits(j, p, rank, nv, i);
    InsertTyped(p, k, ins);
    InsertRanked(p, rank, k, ins, 2 * j.rank0[I]);
    InsertedNode(j, p, rank, nv, i, k);
    ExtendNodes(j, p, rank, nv, i, q, rank', Ref(k));
  }

  lemma InsertedNode(j: Job, p: Program, rank: map<Id, nat>, nv: map<Id, Value>, i: nat, k: Id)
    requires j.Ok() && i < |j.keys| && Grown(j, p, rank, nv, i) && j.keys[i] in j.p0 && j.keys[i] in j.rank0
    requires !(j.p0[j.keys[i]].Cast? && WidthOf(j.p0, j.p0[j.keys[i]].src) == j.m)
    requires k !in p && !AllConst(LoweredInstr(j.p0, nv, j.m, j.p0[j.keys[i]]))
    ensures NodeDone(j, p[k := LoweredInstr(j.p0, nv, j.m, j.p0[j.keys[i]])], rank[k := 2 * j.rank0[j.keys[i]]],
                     nv[j.keys[i] := Ref(k)], j.keys[i])
  {
    hide WellTyped, Ranked, FreshClean, Kept0, NodesDone, Shape, LoweredInstr, InstrOk;
    var I := j.keys[i];
    var ins := LoweredInstr(j.p0, nv, j.m, j.p0[I]);
    assert I in j.keys;
    LoweredFits(j, p, rank, nv, i);
    LoweredIgnoresSelf(j, nv, i, Ref(k));
    ExtendsInstr(p, p[k := ins], ins);
    NewName(j, p, rank, nv, i, k);
  }

  lemma NewName(j: Job, p: Program, rank: map<Id, nat>, nv: map<Id, Value>, i: nat, k: Id)
    requires j.Ok() && i < |j.keys| && Grown(j, p, rank, nv, i) && k !in p
    ensures k !in j.p0 && k !in j.keys && k != j.t
  {
    hide WellTyped, Ranked, FreshClean, NodesDone, Shape;
    JobTrunc(j);
    forall J | J in j.keys ensures J in j.p0 { JobNode(j, J); }
  }

  // ----- replacing the trunc -----

  /** `res` is what the trunc is replaced by: the reduced root, cut down further if need be. */
  ghost predicate RootDone(j: Job, p: Program, rank: map<Id, nat>, nv: map<Id, Value>, res: Value)
    requires j.Ok()
  {
    var root, k := ReducedOperand(nv, j.p0[j.t].src, j.m), j.p0[j.t].width;
    j.t in j.rank0 && Typed(p, res, k) && Clean(j, p, rank, res, 2 * j.rank0[j.t])
    && (if j.m == k then res == root else Built(p, res, Cast(Trunc, root, k)))
    && (j.m != k && res.Ref? ==> res.id !in j.p0 && j.home(res.id) == j.home(j.t))
  }

  function ReplaceAllUses(p: Program, t: Id, res: Value): Program {
    map id | id in p :: ReplacedIn(p[id], t, res)
  }

  /** The trunc is gone; the old dag may still be there, and nothing new depends on it. */
  ghost predicate Edited(j: Job, q: Program, rank: map<Id, nat>, nv: map<Id, Value>, res: Value)
    requires j.Ok()
  {
    WellTyped(q) && Ranked(q, rank) && FreshClean(j, q)
    && Rewritten(j.p0, q, j.t, j.keys, nv, res, j.m)
    && Added(j.home, j.p0, q, j.t, j.keys, nv, res, j.m)
    && (forall I | I in j.keys :: NewValueClean(j, nv, I))
    && (res.Ref? ==> res.id !in j.keys && res.id != j.t)
  }

  ghost predicate NewValueClean(j: Job, nv: map<Id, Value>, I: Id) {
    I in j.p0 && I in nv && (nv[I].Ref? ==> nv[I].id !in j.keys && nv[I].id != j.t)
    && CleanInstr(j, LoweredInstr(j.p0, nv, j.m, j.p0[I]))
  }

  lemma ReducedOperandClean(j: Job, nv: map<Id, Value>, I: Id, o: Value)
    requires j.Ok() && I in j.keys && I in j.p0 && o in Relevant(j.p0[I])
    requires forall J | J in j.keys :: J in nv && (nv[J].Ref? ==> nv[J].id !in j.keys && nv[J].id != j.t)
    ensures ReducedOperand(nv, o, j.m).Ref? ==>
            ReducedOperand(nv, o, j.m).id !in j.keys
            && ReducedOperand(nv, o, j.m).id != j.t
  {
    if o.Ref? {
      assert Edge(j.p0, I, o.id);
      DagClosedAt(j.p0, j.p0[j.t].src, j.keys, I);
    }
  }

  lemma LoweredClean(j: Job, p: Program, rank: map<Id, nat>, nv: map<Id, Value>)
    requires j.Ok() && Grown(j, p, rank, nv, |j.keys|)
    ensures forall I | I in j.keys :: NewValueClean(j, nv, I)
  {
    hide WellTyped, Ranked, FreshClean, Kept0, Lowered, Shape;
    assert j.keys[..|j.keys|] == j.keys;
    forall J | J in j.keys ensures J in nv && (nv[J].Ref? ==> nv[J].id !in j.keys && nv[J].id != j.t) {
      assert NodeDone(j, p, rank, nv, J);
    }
    forall I | I in j.keys ensures NewValueClean(j, nv, I) {
      JobNode(j, I);
      match j.p0[I]
      case Cast(_, src, _) => if src.Ref? { OutsideOperand(j, I, src); }
      case Bin(_, _, a, b, _) =>
        ReducedOperandClean(j, nv, I, a);
        ReducedOperandClean(j, nv, I, b);
      case Select(c, a, b, _) =>
        if c.Ref? { OutsideOperand(j, I, c); }
        ReducedOperandClean(j, nv, I, a);
        ReducedOperandClean(j, nv, I, b);
      case Opaque(_, _) => assert false;
    }
  }

  /** Every use of t can be served by `res` in q. */
  ghost predicate Serves(p: Program, q: Program, t: Id, res: Value) {
    forall v | ValueOk(p, v) :: ValueOk(q, Replaced(v, t, res)) && WidthOf(q, Replaced(v, t, res)) == WidthOf(p, v)
  }

  lemma ReplacedTyped(p: Program, q: Program, t: Id, res: Value, ins: Instr)
    requires Serves(p, q, t, res) && InstrOk(p, ins)
    ensures InstrOk(q, ReplacedIn(ins, t, res))
  {
    if ins.Opaque? {
      var r := ReplacedIn(ins, t, res);
      forall o | o in r.ops ensures ValueOk(q, o) {
        var i :| 0 <= i < |r.ops| && r.ops[i] == o;
        assert ins.ops[i] in ins.ops;
      }
    }
  }

  lemma ReplacedClean(ins: Instr, t: Id, res: Value)
    requires !ins.Opaque? && Ref(t) !in Operands(ins)
    ensures ReplacedIn(ins, t, res) == ins
  {
    match ins
    case Cast(_, src, _) => assert src in Operands(ins);
    case Bin(_, _, a, b, _) => assert a in Operands(ins) && b in Operands(ins);
    case Select(c, a, b, _) => assert c in Operands(ins) && a in Operands(ins) && b in Operands(ins);
  }

  lemma BuiltAfterReplace(j: Job, p: Program, q: Program, res: Value, v: Value, ins: Instr)
    requires Serves(p, q, j.t, res) && Built(p, v, ins) && CleanInstr(j, ins) && (v.Ref? ==> v.id != j.t)
    requires forall id | id in p && id != j.t :: id in q && q[id] == ReplacedIn(p[id], j.t, res)
    ensures Built(q, v, ins)
  {
    hide Serves;
    ReplacedClean(ins, j.t, res);
    ReplacedTyped(p, q, j.t, res, ins);
    if v.Const? && ins.Cast? {
      assert ins.src in Operands(ins);
    }
  }

  lemma ReplacedRanked(j: Job, p: Program, rank: map<Id, nat>, res: Value, q: Program)
    requires j.Ok() && WellTyped(p) && Ranked(p, rank) && Kept0(j, p, rank) && FreshClean(j, p)
    requires j.t in j.rank0 && Clean(j, p, rank, res, 2 * j.rank0[j.t])
    requires forall id | id in q :: id in p && q[id] == ReplacedIn(p[id], j.t, res)
    ensures Ranked(q, rank)
  {
    hide WellTyped, Job.Ok, Ranked, FreshClean, Kept0, Clean;
    forall id, o | id in q && o in Operands(q[id]) && o.Ref?
      ensures id in rank && o.id in rank && rank[o.id] < rank[id]
    {
      var i :| 0 <= i < |Operands(q[id])| && Operands(q[id])[i] == o;
      assert o == Replaced(Operands(p[id])[i], j.t, res);
      ReplacedOperandRank(j, p, rank, res, id, Operands(p[id])[i]);
    }
    RankedDomain(p, rank);
    RankedIf(q, rank);
  }

  lemma RankedDomain(p: Program, rank: map<Id, nat>)
    requires Ranked(p, rank)
    ensures forall id | id in p :: id in rank
  {
  }

  lemma RankedIf(q: Program, rank: map<Id, nat>)
    requires forall id | id in q :: id in rank
    requires forall id, o | id in q && o in Operands(q[id]) && o.Ref? :: o.id in rank && rank[o.id] < rank[id]
    ensures Ranked(q, rank)
  {
  }

  lemma ReplacedOperandRank(j: Job, p: Program, rank: map<Id, nat>, res: Value, id: Id, o0: Value)
    requires j.Ok() && Ranked(p, rank) && Kept0(j, p, rank) && FreshClean(j, p)
    requires j.t in j.rank0 && Clean(j, p, rank, res, 2 * j.rank0[j.t])
    requires id in p && o0 in Operands(p[id])
    ensures id in rank
    ensures Replaced(o0, j.t, res).Ref? ==>
            Replaced(o0, j.t, res).id in rank
            && rank[Replaced(o0, j.t, res).id] < rank[id]
  {
    hide WellTyped, Shape;
    if o0 == Ref(j.t) {
      assert id in j.p0;
      assert rank[j.t] < rank[id];
    }
  }

  lemma ReplaceServes(j: Job, p: Program, res: Value, q: Program)
    requires j.Ok() && j.t in p && p[j.t] == j.p0[j.t] && Typed(p, res, j.p0[j.t].width) && res != Ref(j.t)
    requires q == ReplaceAllUses(p, j.t, res) - {j.t}
    ensures Serves(p, q, j.t, res)
  {
    hide WellTyped, Ranked;
  }

  lemma ReplaceTrunc(j: Job, p: Program, rank: map<Id, nat>, nv: map<Id, Value>, res: Value)
    requires j.Ok() && Grown(j, p, rank, nv, |j.keys|) && RootDone(j, p, rank, nv, res) && Making(j, p, nv, res)
    ensures Edited(j, ReplaceAllUses(p, j.t, res) - {j.t}, rank, nv, res)
  {
    hide Job.Ok, WellTyped, Ranked, NodesDone, FreshClean, Kept0, Built, Serves, Rewritten, Added, Making,
         NewValueClean;
    var q := ReplaceAllUses(p, j.t, res) - {j.t};
    KeysPresent(j, p, rank);
    JobTrunc(j);
    ResultClean(j, p, rank, nv, res);
    ReplaceServes(j, p, res, q);
    ReplacedWellTyped(p, q, j.t, res);
    ReplacedRanked(j, p, rank, res, q);
    LoweredClean(j, p, rank, nv);
    ReplacedFresh(j, p, q, res);
    ReplacedRewritten(j, p, rank, nv, res, q);
    ReplacedAdded(j, p, rank, nv, res);
  }

  lemma ResultClean(j: Job, p: Program, rank: map<Id, nat>, nv: map<Id, Value>, res: Value)
    requires j.Ok() && RootDone(j, p, rank, nv, res)
    ensures j.t in j.p0 && j.p0[j.t].Cast? && j.t in j.rank0
    ensures Typed(p, res, j.p0[j.t].width) && Clean(j, p, rank, res, 2 * j.rank0[j.t])
  {
    hide Built, WellTyped, Ranked;
  }

  lemma ReplacedRewritten(j: Job, p: Program, rank: map<Id, nat>, nv: map<Id, Value>, res: Value, q: Program)
    requires j.Ok() && Grown(j, p, rank, nv, |j.keys|) && RootDone(j, p, rank, nv, res)
    requires forall I | I in j.keys :: NewValueClean(j, nv, I)
    requires q == ReplaceAllUses(p, j.t, res) - {j.t} && Serves(p, q, j.t, res)
    ensures j.t in j.p0 && j.p0[j.t].Cast? && Rewritten(j.p0, q, j.t, j.keys, nv, res, j.m)
  {
    hide Shape, WellTyped, Ranked, NodesDone, FreshClean, Built, Serves, Lowered, NewValueClean;
    JobTrunc(j);
    forall I | I in j.keys ensures I in j.p0 && Lowered(j.p0, q, nv, j.m, I) {
      LoweredAfterReplace(j, p, rank, nv, res, q, I);
    }
    RootAfterReplace(j, p, rank, nv, res, q);
  }

  lemma ReplacedAdded(j: Job, p: Program, rank: map<Id, nat>, nv: map<Id, Value>, res: Value)
    requires j.Ok() && RootDone(j, p, rank, nv, res) && Making(j, p, nv, res)
    ensures j.t in j.p0 && Added(j.home, j.p0, ReplaceAllUses(p, j.t, res) - {j.t}, j.t, j.keys, nv, res, j.m)
  {
    hide Shape, WellTyped, Ranked, Built, OnlyMade, Inserted;
    JobTrunc(j);
    ReplacedMade(j, p, nv, res);
  }

  lemma ReplacedMade(j: Job, p: Program, nv: map<Id, Value>, res: Value)
    requires OnlyMade(j.p0, p, nv, res)
    ensures OnlyMade(j.p0, ReplaceAllUses(p, j.t, res) - {j.t}, nv, res)
  {
  }

  lemma JobTrunc(j: Job)
    requires j.Ok()
    ensures j.t in j.p0 && j.p0[j.t].Cast? && j.p0[j.t].cop.Trunc? && InstrOk(j.p0, j.p0[j.t])
  {
  }

  lemma ReplacedWellTyped(p: Program, q: Program, t: Id, res: Value)
    requires WellTyped(p) && Serves(p, q, t, res)
    requires q == ReplaceAllUses(p, t, res) - {t}
    ensures WellTyped(q)
  {
    forall id | id in q ensures InstrOk(q, q[id]) { ReplacedTyped(p, q, t, res, p[id]); }
  }

  lemma ReplacedFresh(j: Job, p: Program, q: Program, res: Value)
    requires FreshClean(j, p) && q == ReplaceAllUses(p, j.t, res) - {j.t}
    ensures FreshClean(j, q)
  {
    forall id | id in q && id !in j.p0 ensures CleanInstr(j, q[id]) {
      assert CleanInstr(j, p[id]);
      ReplacedClean(p[id], j.t, res);
    }
  }

  lemma LoweredAfterReplace(j: Job, p: Program, rank: map<Id, nat>, nv: map<Id, Value>, res: Value, q: Program, I: Id)
    requires j.Ok() && Grown(j, p, rank, nv, |j.keys|) && I in j.keys && NewValueClean(j, nv, I)
    requires q == ReplaceAllUses(p, j.t, res) - {j.t} && Serves(p, q, j.t, res)
    ensures I in j.p0 && Lowered(j.p0, q, nv, j.m, I)
  {
    hide Shape, WellTyped, Ranked, Kept0, FreshClean, Built, CleanInstr;
    assert j.keys[..|j.keys|] == j.keys;
    assert NodeDone(j, p, rank, nv, I);
    assert Replaced(nv[I], j.t, res) == nv[I];
    if !(j.p0[I].Cast? && WidthOf(j.p0, j.p0[I].src) == j.m) {
      BuiltAfterReplace(j, p, q, res, nv[I], LoweredInstr(j.p0, nv, j.m, j.p0[I]));
    }
  }

  lemma RootAfterReplace(j: Job, p: Program, rank: map<Id, nat>, nv: map<Id, Value>, res: Value, q: Program)
    requires j.Ok() && RootDone(j, p, rank, nv, res)
    requires forall I | I in j.keys :: NewValueClean(j, nv, I)
    requires q == ReplaceAllUses(p, j.t, res) - {j.t} && Serves(p, q, j.t, res)
    ensures var root, k := ReducedOperand(nv, j.p0[j.t].src, j.m), j.p0[j.t].width;
            Typed(q, res, k) && if j.m == k then res == root else Built(q, res, Cast(Trunc, root, k))
  {
    hide WellTyped, Ranked, Built;
    var src := j.p0[j.t].src;
    var root, k := ReducedOperand(nv, src, j.m), j.p0[j.t].width;
    assert Replaced(res, j.t, res) == res;
    if j.m != k {
      if src.Ref? {
        RootInDag(j.p0, src, j.keys);
        assert NewValueClean(j, nv, src.id);
      }
      BuiltAfterReplace(j, p, q, res, res, Cast(Trunc, root, k));
    }
  }

  /** The final trunc joins the program without disturbing the new dag. */
  lemma GrowExtra(j: Job, p: Program, rank: map<Id, nat>, nv: map<Id, Value>, k: Id, ins: Instr, r: nat)
    requires j.Ok() && Grown(j, p, rank, nv, |j.keys|) && k !in p
    requires InstrOk(p, ins) && CleanInstr(j, ins)
    requires forall o | o in Operands(ins) && o.Ref? :: o.id in p && o.id in rank && rank[o.id] < r
    ensures Grown(j, p[k := ins], rank[k := r], nv, |j.keys|)
  {
    hide Shape, Ranked, WellTyped, NodeDone;
    var q, rank' := p[k := ins], rank[k := r];
    InsertTyped(p, k, ins);
    InsertRanked(p, rank, k, ins, r);
    assert j.keys[..|j.keys|] == j.keys;
    forall J | J in j.keys ensures NodeDone(j, q, rank', nv, J) {
      NodeStays(j, p, rank, nv, q, rank', J);
    }
  }

  lemma NodeStays(j: Job, p: Program, rank: map<Id, nat>, nv: map<Id, Value>, q: Program, rank': map<Id, nat>, J: Id)
    requires NodeDone(j, p, rank, nv, J)
    requires Extends(p, q) && forall id | id in p && id in rank :: id in rank' && rank'[id] == rank[id]
    ensures NodeDone(j, q, rank', nv, J)
  {
    hide Built;
    ExtendsValue(p, q, nv[J]);
    if !(j.p0[J].Cast? && WidthOf(j.p0, j.p0[J].src) == j.m) {
      ExtendsBuilt(p, q, nv[J], LoweredInstr(j.p0, nv, j.m, j.p0[J]));
    }
  }

  /** What the grown program offers for the trunc's operand. */
  lemma RootFits(j: Job, p: Program, rank: map<Id, nat>, nv: map<Id, Value>)
    requires j.Ok() && Grown(j, p, rank, nv, |j.keys|)
    ensures var root, k := ReducedOperand(nv, j.p0[j.t].src, j.m), j.p0[j.t].width;
            j.t in j.rank0 && Typed(p, root, j.m) && Clean(j, p, rank, root, 2 * j.rank0[j.t])
            && (root.Ref? ==> rank[root.id] < 2 * j.rank0[j.t])
            && (j.m != k ==> InstrOk(p, Cast(Trunc, root, k)) && CleanInstr(j, Cast(Trunc, root, k)))
  {
    hide WellTyped, Ranked, Kept0, FreshClean, Built, Lowered;
    var src := j.p0[j.t].src;
    JobTrunc(j);
    assert j.keys[..|j.keys|] == j.keys;
    if src.Ref? {
      RootInDag(j.p0, src, j.keys);
      JobNode(j, src.id);
      assert NodeDone(j, p, rank, nv, src.id);
      LoweredTyped(j, p, nv, src.id);
    } else {
      assert ValueOk(j.p0, src);
      TruncRank(j);
    }
  }

  lemma KeysPresent(j: Job, p: Program, rank: map<Id, nat>)
    requires j.Ok() && Kept0(j, p, rank)
    ensures forall I | I in j.keys :: I in p
    ensures j.t in p && p[j.t] == j.p0[j.t] && p[j.t].Cast?
  {
    hide Shape;
    forall I | I in j.keys ensures I in p { JobNode(j, I); }
    JobTrunc(j);
  }

  lemma LoweredTyped(j: Job, p: Program, nv: map<Id, Value>, I: Id)
    requires I in j.p0 && Lowered(j.p0, p, nv, j.m, I)
    ensures I in nv && Typed(p, nv[I], j.m)
  {
  }

  lemma TruncRank(j: Job)
    requires j.Ok()
    ensures j.t in j.rank0
  {
  }

  /** A node not yet rebuilt reads the same in the grown program. */
  lemma NodeUnchanged(j: Job, p: Program, rank: map<Id, nat>, nv: map<Id, Value>, i: nat, I: Id)
    requires j.Ok() && i <= |j.keys| && Grown(j, p, rank, nv, i) && I in j.keys
    ensures I in p && I in j.p0 && p[I] == j.p0[I] && InstrOk(j.p0, p[I]) && !p[I].Opaque? && p[I].width > j.m >= 1
    ensures p[I].Cast? ==> WidthOf(p, p[I].src) == WidthOf(j.p0, p[I].src)
    ensures LoweredInstr(p, nv, j.m, p[I]) == LoweredInstr(j.p0, nv, j.m, j.p0[I])
    ensures j.t in p
  {
    hide WellTyped, Ranked, FreshClean, NodesDone, Shape;
    JobNode(j, I);
    JobTrunc(j);
    if p[I].Cast? && p[I].src.Ref? { assert ValueOk(j.p0, p[I].src); }
  }
}
