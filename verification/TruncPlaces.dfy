/** Where divisions and casts stand: a condition on places under which answers right at the trunc are
    enough for every reduction of a run, because reductions keep it. */
module TruncPlaces {
  import opened Ir
  import opened TruncDag
  import opened TruncRewrite
  import opened TruncImplements
  import opened TruncEdit

  predicate Reads(p: Program, x: Id, y: Id) {
    x in p && Ref(y) in Operands(p[x])
  }

  ghost predicate Computing(p: Program, path: seq<Id>) {
    forall i | 0 < i < |path| :: Reads(p, path[i - 1], path[i])
  }

  ghost predicate Leads(p: Program, path: seq<Id>, c: Id, d: Id) {
    path != [] && path[0] == c && path[|path| - 1] == d && Computing(p, path)
  }

  /** The value of c is computed from that of d, through any number of instructions. */
  ghost predicate ComputedFrom(p: Program, c: Id, d: Id) {
    exists path :: Leads(p, path, c, d)
  }

  /** A division stands with every cast computed from it. */
  ghost predicate DividesWithCasts(home: Id -> nat, p: Program) {
    forall d, c | d in p && c in p && IsDivide(p[d]) && p[c].Cast? && ComputedFrom(p, c, d) :: home(d) == home(c)
  }

  lemma ComputedSelf(p: Program, c: Id)
    ensures ComputedFrom(p, c, c)
  {
    assert Leads(p, [c], c, c);
  }

  lemma ComputedStep(p: Program, c: Id, x: Id, y: Id)
    requires ComputedFrom(p, c, x) && x in p && Ref(y) in Operands(p[x])
    ensures ComputedFrom(p, c, y)
  {
    var path :| Leads(p, path, c, x);
    assert Leads(p, path + [y], c, y);
  }

  // ----- the dag is computed from its nodes -----

  lemma {:induction false} DagComputed(p: Program, t: Id, path: seq<Id>, root: Id, id: Id)
    requires ComputedFrom(p, t, root) && PathTo(p, path, root, id)
    ensures ComputedFrom(p, t, id)
    decreases |path|
  {
    if |path| > 1 {
      var prev := path[|path| - 2];
      assert Edge(p, path[|path| - 2], path[|path| - 1]);
      DagComputed(p, t, path[..|path| - 1], root, prev);
      RelevantIsOperand(p[prev], Ref(id));
      ComputedStep(p, t, prev, id);
    }
  }

  lemma RelevantIsOperand(ins: Instr, v: Value)
    requires v in Relevant(ins)
    ensures v in Operands(ins)
  {
  }

  /** The divisions of a dag stand where its trunc does. */
  lemma DividesThere(home: Id -> nat, p: Program, t: Id, keys: seq<Id>, m: nat)
    requires DividesWithCasts(home, p) && Shape(p, t, keys, m)
    ensures DividesAtTrunc(home, p, t, keys)
  {
    hide IsPath, ComputedFrom;
    forall I | I in keys && I in p && IsDivide(p[I]) ensures home(I) == home(t) {
      var src := p[t].src;
      var path :| PathTo(p, path, src.id, I);
      assert src in Operands(p[t]);
      ComputedSelf(p, t);
      ComputedStep(p, t, t, src.id);
      DagComputed(p, t, path, src.id, I);
    }
  }

  // ----- reductions keep the condition -----

  /** `orig` is the instruction of the old program that `id` is or stands for. */
  ghost predicate StandsFor(j: Job, nv: map<Id, Value>, res: Value, id: Id, orig: Id) {
    j.t in j.p0 && orig in j.p0
    && if id in j.p0 then orig == id
       else (orig in nv && nv[orig] == Ref(id)) || (orig == j.t && j.m != j.p0[j.t].width && res == Ref(id))
  }

  lemma StandIn(j: Job, q: Program, rank: map<Id, nat>, nv: map<Id, Value>, res: Value, id: Id) returns (orig: Id)
    requires j.Ok() && Edited(j, q, rank, nv, res) && id in q
    ensures StandsFor(j, nv, res, id, orig)
  {
    hide WellTyped, Ranked, FreshClean;
    JobTrunc(j);
    if id in j.p0 {
      orig := id;
    } else if Made(nv, id) {
      orig :| orig in nv && nv[orig] == Ref(id);
      JobNode(j, orig);
    } else {
      orig := j.t;
      var src := j.p0[j.t].src;
      if src.Ref? {
        RootInDag(j.p0, src, j.keys);
        assert NewValueClean(j, nv, src.id);
      }
    }
  }

  /** What stands for an instruction is of its kind, and in its place. */
  lemma KindKept(j: Job, q: Program, rank: map<Id, nat>, nv: map<Id, Value>, res: Value, id: Id, orig: Id)
    requires j.Ok() && Edited(j, q, rank, nv, res) && id in q && StandsFor(j, nv, res, id, orig)
    ensures j.home(orig) == j.home(id)
    ensures q[id].Cast? ==> j.p0[orig].Cast?
    ensures IsDivide(q[id]) ==> IsDivide(j.p0[orig])
  {
    hide WellTyped, Ranked, FreshClean, OnlyMade;
    JobTrunc(j);
    if id !in j.p0 && orig in nv && nv[orig] == Ref(id) {
      JobNode(j, orig);
      assert Inserted(j.home, j.p0, nv, j.m, orig) && Lowered(j.p0, q, nv, j.m, orig);
    }
  }

  /** A rebuilt node is computed from what it stands for; a cast that was dropped, from its source. */
  lemma RebuiltComputed(j: Job, q: Program, rank: map<Id, nat>, nv: map<Id, Value>, res: Value, c: Id, I: Id, y: Id)
    returns (orig: Id)
    requires j.Ok() && Edited(j, q, rank, nv, res) && I in j.keys && I in nv && nv[I] == Ref(y)
    requires ComputedFrom(j.p0, c, I)
    ensures StandsFor(j, nv, res, y, orig) && ComputedFrom(j.p0, c, orig)
  {
    hide WellTyped, Ranked, FreshClean, OnlyMade, Built, ComputedFrom;
    JobTrunc(j);
    JobNode(j, I);
    assert Inserted(j.home, j.p0, nv, j.m, I) && Lowered(j.p0, q, nv, j.m, I);
    orig := I;
    if y in j.p0 {
      assert Ref(y) in Operands(j.p0[I]);
      ComputedStep(j.p0, c, I, y);
      orig := y;
    }
  }

  /** What replaces the trunc is computed from what the trunc was. */
  lemma RootComputed(j: Job, q: Program, rank: map<Id, nat>, nv: map<Id, Value>, res: Value, c: Id, y: Id)
    returns (orig: Id)
    requires j.Ok() && Edited(j, q, rank, nv, res) && ComputedFrom(j.p0, c, j.t)
    requires var src := j.p0[j.t].src; ReducedOperand(nv, src, j.m) == Ref(y)
    ensures StandsFor(j, nv, res, y, orig) && ComputedFrom(j.p0, c, orig)
  {
    hide Job.Ok, Edited, ComputedFrom;
    JobTrunc(j);
    var src := j.p0[j.t].src;
    RootNode(j, q, rank, nv, res);
    assert src in Operands(j.p0[j.t]);
    ComputedStep(j.p0, c, j.t, src.id);
    orig := RebuiltComputed(j, q, rank, nv, res, c, src.id, y);
  }

  lemma RootNode(j: Job, q: Program, rank: map<Id, nat>, nv: map<Id, Value>, res: Value)
    requires j.Ok() && Edited(j, q, rank, nv, res) && j.p0[j.t].src.Ref?
    ensures j.p0[j.t].src.id in j.keys && j.p0[j.t].src.id in nv
  {
    hide WellTyped, Ranked, FreshClean, Rewritten, Added;
    RootInDag(j.p0, j.p0[j.t].src, j.keys);
    assert NewValueClean(j, nv, j.p0[j.t].src.id);
  }

  /** One step of computation in the new program is some steps in the old one. */
  lemma StepKept(j: Job, q: Program, rank: map<Id, nat>, nv: map<Id, Value>, res: Value, c: Id, x: Id, orig: Id, y: Id)
    returns (next: Id)
    requires j.Ok() && Edited(j, q, rank, nv, res) && x in q && Ref(y) in Operands(q[x])
    requires StandsFor(j, nv, res, x, orig) && ComputedFrom(j.p0, c, orig)
    ensures StandsFor(j, nv, res, y, next) && ComputedFrom(j.p0, c, next)
  {
    hide Job.Ok, Edited, ComputedFrom;
    JobTrunc(j);
    if x in j.p0 {
      next := OldStepKept(j, q, rank, nv, res, c, x, y);
    } else if orig in nv && nv[orig] == Ref(x) {
      next := NewStepKept(j, q, rank, nv, res, c, orig, y);
    } else {
      FinalTrunc(j, q, rank, nv, res);
      next := RootComputed(j, q, rank, nv, res, c, y);
    }
  }

  lemma FinalTrunc(j: Job, q: Program, rank: map<Id, nat>, nv: map<Id, Value>, res: Value)
    requires j.Ok() && Edited(j, q, rank, nv, res) && j.m != j.p0[j.t].width && res.Ref?
    ensures res.id in q && q[res.id] == Cast(Trunc, ReducedOperand(nv, j.p0[j.t].src, j.m), j.p0[j.t].width)
  {
    hide WellTyped, Ranked, FreshClean, Added, Lowered;
  }

  lemma OldStepKept(j: Job, q: Program, rank: map<Id, nat>, nv: map<Id, Value>, res: Value, c: Id, x: Id, y: Id)
    returns (next: Id)
    requires j.Ok() && Edited(j, q, rank, nv, res) && x in q && x in j.p0 && Ref(y) in Operands(q[x])
    requires ComputedFrom(j.p0, c, x)
    ensures StandsFor(j, nv, res, y, next) && ComputedFrom(j.p0, c, next)
  {
    hide Job.Ok, Edited, ComputedFrom;
    JobTrunc(j);
    var o := OldOperand(j, q, rank, nv, res, x, y);
    ComputedStep(j.p0, c, x, o.id);
    if o != Ref(j.t) {
      next := y;
    } else if j.m == j.p0[j.t].width {
      next := RootComputed(j, q, rank, nv, res, c, y);
    } else {
      next := j.t;
    }
  }

  lemma OldOperand(j: Job, q: Program, rank: map<Id, nat>, nv: map<Id, Value>, res: Value, x: Id, y: Id)
    returns (o: Value)
    requires j.Ok() && Edited(j, q, rank, nv, res) && x in q && x in j.p0 && Ref(y) in Operands(q[x])
    ensures o in Operands(j.p0[x]) && o.Ref? && o.id in j.p0
    ensures if o == Ref(j.t) then res == Ref(y) else o == Ref(y)
    ensures j.m == j.p0[j.t].width ==> res == ReducedOperand(nv, j.p0[j.t].src, j.m)
    ensures j.m != j.p0[j.t].width && res.Ref? ==> res.id !in j.p0
  {
    hide Job.Ok, Edited, InstrOk;
    JobTrunc(j);
    KeptInstr(j, q, rank, nv, res, x);
    var i :| 0 <= i < |Operands(q[x])| && Operands(q[x])[i] == Ref(y);
    o := Operands(j.p0[x])[i];
    assert Ref(y) == Replaced(o, j.t, res);
    OperandOk(j.p0, j.p0[x], o);
  }

  lemma KeptInstr(j: Job, q: Program, rank: map<Id, nat>, nv: map<Id, Value>, res: Value, x: Id)
    requires j.Ok() && Edited(j, q, rank, nv, res) && x in q && x in j.p0
    ensures q[x] == ReplacedIn(j.p0[x], j.t, res) && InstrOk(j.p0, j.p0[x])
    ensures j.m == j.p0[j.t].width ==> res == ReducedOperand(nv, j.p0[j.t].src, j.m)
    ensures j.m != j.p0[j.t].width && res.Ref? ==> res.id !in j.p0
  {
    hide Ranked, FreshClean, Lowered, Built, OnlyMade, InstrOk, Shape, ReplacedIn;
    JobTrunc(j);
    TypedAt(j.p0, x);
  }

  lemma NewStepKept(j: Job, q: Program, rank: map<Id, nat>, nv: map<Id, Value>, res: Value, c: Id, I: Id, y: Id)
    returns (next: Id)
    requires j.Ok() && Edited(j, q, rank, nv, res) && I in nv && nv[I].Ref? && nv[I].id in q && nv[I].id !in j.p0
    requires Ref(y) in Operands(q[nv[I].id]) && ComputedFrom(j.p0, c, I)
    ensures StandsFor(j, nv, res, y, next) && ComputedFrom(j.p0, c, next)
  {
    hide Job.Ok, Edited, ComputedFrom;
    JobTrunc(j);
    var o := NewOperand(j, q, rank, nv, res, I, y);
    ComputedStep(j.p0, c, I, o.id);
    if o == Ref(y) {
      next := y;
    } else {
      next := RebuiltComputed(j, q, rank, nv, res, c, o.id, y);
    }
  }

  /** The instruction under a new name is the lowered node. */
  lemma RebuiltInstr(j: Job, q: Program, rank: map<Id, nat>, nv: map<Id, Value>, res: Value, I: Id)
    requires j.Ok() && Edited(j, q, rank, nv, res) && I in nv && nv[I].Ref? && nv[I].id in q && nv[I].id !in j.p0
    ensures I in j.keys && I in j.p0 && InstrOk(j.p0, j.p0[I]) && !j.p0[I].Opaque?
    ensures q[nv[I].id] == LoweredInstr(j.p0, nv, j.m, j.p0[I])
  {
    hide WellTyped, Ranked, FreshClean, OnlyMade, Shape, InstrOk;
    assert I in j.keys;
    JobTrunc(j);
    JobNode(j, I);
    assert Inserted(j.home, j.p0, nv, j.m, I) && Lowered(j.p0, q, nv, j.m, I);
  }

  lemma NewOperand(j: Job, q: Program, rank: map<Id, nat>, nv: map<Id, Value>, res: Value, I: Id, y: Id)
    returns (o: Value)
    requires j.Ok() && Edited(j, q, rank, nv, res) && I in nv && nv[I].Ref? && nv[I].id in q && nv[I].id !in j.p0
    requires Ref(y) in Operands(q[nv[I].id])
    ensures I in j.p0 && o in Operands(j.p0[I]) && o.Ref? && o.id in j.p0
    ensures o == Ref(y) || (o.id in j.keys && o.id in nv && nv[o.id] == Ref(y))
  {
    hide Job.Ok, Edited, InstrOk;
    RebuiltInstr(j, q, rank, nv, res, I);
    var ins := j.p0[I];
    if ins.Cast? || (ins.Select? && Ref(y) == ins.cond) {
      o := Ref(y);
    } else {
      LoweredOperands(j.p0, nv, j.m, ins, Ref(y));
      o :| o in Relevant(ins) && Ref(y) == ReducedOperand(nv, o, j.m);
      RelevantIsOperand(ins, o);
      NodeRebuilt(j, q, rank, nv, res, I, o.id);
    }
    OperandOk(j.p0, ins, o);
  }

  lemma NodeRebuilt(j: Job, q: Program, rank: map<Id, nat>, nv: map<Id, Value>, res: Value, I: Id, y: Id)
    requires j.Ok() && Edited(j, q, rank, nv, res) && I in j.keys && I in j.p0 && Ref(y) in Relevant(j.p0[I])
    ensures y in j.keys && y in nv
  {
    hide WellTyped, Ranked, FreshClean, Rewritten, Added;
    JobTrunc(j);
    assert Edge(j.p0, I, y);
    DagClosedAt(j.p0, j.p0[j.t].src, j.keys, I);
    assert NewValueClean(j, nv, y);
  }

  /** Whatever is computed in the new program was computed in the old one. */
  lemma {:induction false} PathKept(j: Job, q: Program, rank: map<Id, nat>, nv: map<Id, Value>, res: Value,
                                    path: seq<Id>, c: Id, orig: Id, d: Id)
    returns (last: Id)
    requires j.Ok() && Edited(j, q, rank, nv, res) && Leads(q, path, c, d) && StandsFor(j, nv, res, c, orig)
    ensures StandsFor(j, nv, res, d, last) && ComputedFrom(j.p0, orig, last)
    decreases |path|
  {
    hide Job.Ok, Edited, StandsFor, ComputedFrom;
    if |path| == 1 {
      ComputedSelf(j.p0, orig);
      last := orig;
    } else {
      var prev := path[|path| - 2];
      assert Leads(q, path[..|path| - 1], c, prev);
      assert Reads(q, path[|path| - 2], path[|path| - 1]);
      var orig' := PathKept(j, q, rank, nv, res, path[..|path| - 1], c, orig, prev);
      last := StepKept(j, q, rank, nv, res, orig, prev, orig', d);
    }
  }

  /** A reduction computes no cast from a division that stands elsewhere if none was before. */
  lemma PlacesKept(j: Job, q: Program, rank: map<Id, nat>, nv: map<Id, Value>, res: Value)
    requires j.Ok() && Edited(j, q, rank, nv, res) && DividesWithCasts(j.home, j.p0)
    ensures DividesWithCasts(j.home, q)
  {
    hide Job.Ok, Edited, StandsFor, Leads;
    forall d, c | d in q && c in q && IsDivide(q[d]) && q[c].Cast? && ComputedFrom(q, c, d)
      ensures j.home(d) == j.home(c)
    {
      var path :| Leads(q, path, c, d);
      var c0 := StandIn(j, q, rank, nv, res, c);
      var d0 := PathKept(j, q, rank, nv, res, path, c, c0, d);
      KindKept(j, q, rank, nv, res, c, c0);
      KindKept(j, q, rank, nv, res, d, d0);
      assert c0 in j.p0 && d0 in j.p0 by { StandInThere(j, nv, res, c, c0); StandInThere(j, nv, res, d, d0); }
    }
  }

  lemma StandInThere(j: Job, nv: map<Id, Value>, res: Value, id: Id, orig: Id)
    requires StandsFor(j, nv, res, id, orig)
    ensures orig in j.p0
  {
  }
}
