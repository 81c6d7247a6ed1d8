/** Erasing the old dag, and the bit-width account that makes the trunc worklist run dry. */
module TruncErase {
  import opened Collections
  import opened Ir
  import opened TruncDag
  import opened TruncRewrite
  import opened TruncEdit

  /** Whether any instruction of p uses `id`. */
  predicate HasUses(p: Program, id: Id) {
    exists u | u in p :: Uses(p[u], id)
  }

  lemma UnusedTyped(q: Program, I: Id)
    requires WellTyped(q) && !HasUses(q, I)
    ensures WellTyped(q - {I})
  {
    var r := q - {I};
    forall id | id in r ensures InstrOk(r, r[id]) {
      assert InstrOk(q, q[id]) && !Uses(q[id], I);
      UnusedInstr(q, I, q[id]);
    }
  }

  lemma UnusedInstr(q: Program, I: Id, ins: Instr)
    requires InstrOk(q, ins) && Ref(I) !in AllOperands(ins)
    ensures InstrOk(q - {I}, ins)
  {
    forall v | v in AllOperands(ins) && ValueOk(q, v)
      ensures ValueOk(q - {I}, v) && WidthOf(q - {I}, v) == WidthOf(q, v)
    {
    }
    match ins
    case Cast(_, src, _) => assert src in AllOperands(ins);
    case Bin(_, _, a, b, _) => assert a in AllOperands(ins) && b in AllOperands(ins);
    case Select(c, a, b, _) => assert c in AllOperands(ins) && a in AllOperands(ins) && b in AllOperands(ins);
    case Opaque(ops, _) =>
  }

  lemma BuiltAfterErase(j: Job, q: Program, v: Value, ins: Instr, I: Id)
    requires I in j.keys && Built(q, v, ins) && CleanInstr(j, ins) && (v.Ref? ==> v.id !in j.keys)
    ensures Built(q - {I}, v, ins)
  {
    UnusedInstr(q, I, ins);
    if v.Const? && ins.Cast? { assert ins.src in Operands(ins); }
  }

  lemma EraseOne(j: Job, q: Program, rank: map<Id, nat>, nv: map<Id, Value>, res: Value, I: Id)
    requires j.Ok() && Edited(j, q, rank, nv, res) && I in j.keys && !HasUses(q, I)
    ensures Edited(j, q - {I}, rank, nv, res)
  {
    hide Job.Ok, Built, WellTyped, HasUses, CleanInstr, Rewritten, Added, NewValueClean;
    UnusedTyped(q, I);
    ErasedRewritten(j, q, rank, nv, res, I);
    ErasedAdded(j, q, rank, nv, res, I);
  }

  lemma ErasedRewritten(j: Job, q: Program, rank: map<Id, nat>, nv: map<Id, Value>, res: Value, I: Id)
    requires j.Ok() && Edited(j, q, rank, nv, res) && I in j.keys
    ensures j.t in j.p0 && j.p0[j.t].Cast? && Rewritten(j.p0, q - {I}, j.t, j.keys, nv, res, j.m)
  {
    hide Job.Ok, Built, WellTyped, Ranked, FreshClean, CleanInstr, Added, Lowered;
    RootAfterErase(j, q, rank, nv, res, I);
    forall J | J in j.keys ensures J in j.p0 && Lowered(j.p0, q - {I}, nv, j.m, J) {
      NodeFactsOf(j, q, rank, nv, res, J);
      LoweredAfterErase(j, q, nv, J, I);
    }
  }

  lemma NodeFactsOf(j: Job, q: Program, rank: map<Id, nat>, nv: map<Id, Value>, res: Value, J: Id)
    requires j.Ok() && Edited(j, q, rank, nv, res) && J in j.keys
    ensures J in j.p0 && Lowered(j.p0, q, nv, j.m, J) && NewValueClean(j, nv, J)
  {
    hide Built, WellTyped, Ranked, FreshClean, Added, Lowered, NewValueClean;
  }

  lemma LoweredAfterErase(j: Job, q: Program, nv: map<Id, Value>, J: Id, I: Id)
    requires J in j.p0 && Lowered(j.p0, q, nv, j.m, J) && NewValueClean(j, nv, J) && I in j.keys
    ensures Lowered(j.p0, q - {I}, nv, j.m, J)
  {
    hide Built, CleanInstr;
    if !(j.p0[J].Cast? && WidthOf(j.p0, j.p0[J].src) == j.m) {
      BuiltAfterErase(j, q, nv[J], LoweredInstr(j.p0, nv, j.m, j.p0[J]), I);
    }
  }

  lemma ErasedAdded(j: Job, q: Program, rank: map<Id, nat>, nv: map<Id, Value>, res: Value, I: Id)
    requires j.Ok() && Edited(j, q, rank, nv, res)
    ensures j.t in j.p0 && Added(j.home, j.p0, q - {I}, j.t, j.keys, nv, res, j.m)
  {
    hide Shape, Built, WellTyped, Ranked, FreshClean, Rewritten, NewValueClean, OnlyMade, Inserted;
    JobTrunc(j);
    ErasedMade(j, q, nv, res, I);
  }

  lemma ErasedMade(j: Job, q: Program, nv: map<Id, Value>, res: Value, I: Id)
    requires OnlyMade(j.p0, q, nv, res)
    ensures OnlyMade(j.p0, q - {I}, nv, res)
  {
  }

  lemma RootAfterErase(j: Job, q: Program, rank: map<Id, nat>, nv: map<Id, Value>, res: Value, I: Id)
    requires j.Ok() && Edited(j, q, rank, nv, res) && I in j.keys
    ensures j.t in j.p0 && j.p0[j.t].Cast?
    ensures var root, k := ReducedOperand(nv, j.p0[j.t].src, j.m), j.p0[j.t].width;
            Typed(q - {I}, res, k) && (j.m != k ==> Built(q - {I}, res, Cast(Trunc, root, k)))
  {
    hide WellTyped, Built, Ranked, FreshClean, Added, Lowered, ReplacedIn;
    var src := j.p0[j.t].src;
    if j.m != j.p0[j.t].width {
      if src.Ref? {
        RootInDag(j.p0, src, j.keys);
        assert NewValueClean(j, nv, src.id);
      }
      BuiltAfterErase(j, q, res, Cast(Trunc, ReducedOperand(nv, src, j.m), j.p0[j.t].width), I);
    }
  }

  // ----- which nodes stay -----

  /** A node used by something outside the dag has to stay. */
  ghost predicate UsedOutside(p: Program, t: Id, keys: seq<Id>, I: Id) {
    exists u :: u in p && u != t && u !in keys && Uses(p[u], I)
  }

  /** Only extensions from width m may be used outside, and a root that needs a trunc is no leaf. */
  ghost predicate Profitable(p: Program, t: Id, keys: seq<Id>, m: nat)
    requires t in p && p[t].Cast?
  {
    (forall I | I in keys && UsedOutside(p, t, keys, I) :: I in p && IsExt(p[I]) && WidthOf(p, p[I].src) == m)
    && (m != p[t].width ==> p[t].src.Ref? && p[t].src.id in p && !p[p[t].src.id].Cast?)
  }

  lemma UsesBefore(j: Job, q: Program, rank: map<Id, nat>, nv: map<Id, Value>, res: Value, u: Id, I: Id)
    requires j.Ok() && Edited(j, q, rank, nv, res) && I in j.keys && u in q && Uses(q[u], I)
    ensures u in j.p0 && u != j.t && Uses(j.p0[u], I)
  {
    hide WellTyped, Shape, Ranked, Lowered, Built, NewValueClean;
    assert u !in j.p0 ==> CleanInstr(j, q[u]);
    if u !in j.p0 { assert false; }
    var ins := j.p0[u];
    assert q[u] == ReplacedIn(ins, j.t, res);
    var i :| 0 <= i < |AllOperands(q[u])| && AllOperands(q[u])[i] == Ref(I);
    assert Replaced(AllOperands(ins)[i], j.t, res) == Ref(I);
    assert AllOperands(ins)[i] == Ref(I);
  }

  /** A use by a dag node is a dag edge, so the user comes later in the order. */
  lemma UserComesLater(j: Job, u: Id, i: nat)
    requires j.Ok() && i < |j.keys| && u in j.keys && u in j.p0 && Uses(j.p0[u], j.keys[i])
    ensures !j.p0[u].Cast?
    ensures exists n :: i < n < |j.keys| && j.keys[n] == u
  {
    hide WellTyped, Ranked;
    var I := j.keys[i];
    assert I in j.keys;
    JobNode(j, u);
    if j.p0[u].Cast? {
      OutsideOperand(j, u, Ref(I));
      assert false;
    } else {
      if j.p0[u].Select? && j.p0[u].cond == Ref(I) {
        OutsideOperand(j, u, Ref(I));
        assert false;
      } else {
        assert Edge(j.p0, u, I);
        var n :| 0 <= n < |j.keys| && j.keys[n] == u;
        assert I in j.keys[..n];
        assert Distinct(j.keys);
      }
    }
  }

  /** Walking the dag backwards, a node still in use when its turn comes is used outside. */
  lemma StillUsed(j: Job, q: Program, rank: map<Id, nat>, nv: map<Id, Value>, res: Value, i: nat)
    requires j.Ok() && Edited(j, q, rank, nv, res) && i < |j.keys| && HasUses(q, j.keys[i])
    requires Profitable(j.p0, j.t, j.keys, j.m)
    requires forall n | i < n < |j.keys| && j.keys[n] in q :: UsedOutside(j.p0, j.t, j.keys, j.keys[n])
    ensures UsedOutside(j.p0, j.t, j.keys, j.keys[i])
  {
    hide Edited, Run.Ok;
    var u :| u in q && Uses(q[u], j.keys[i]);
    UsesBefore(j, q, rank, nv, res, u, j.keys[i]);
    if u in j.keys {
      UserComesLater(j, u, i);
      assert false;
    }
  }

  // ----- total bit width -----

  /** The summed widths of the instructions named below n. */
  function TotalWidth(p: Program, n: nat): nat {
    if n == 0 then 0 else TotalWidth(p, n - 1) + if n - 1 in p then p[n - 1].width else 0
  }

  lemma {:induction false} TotalSame(p: Program, q: Program, n: nat)
    requires forall id | id < n :: (id in p <==> id in q) && (id in p ==> p[id].width == q[id].width)
    ensures TotalWidth(p, n) == TotalWidth(q, n)
  {
    if n > 0 { TotalSame(p, q, n - 1); }
  }

  /** Names nothing bears add nothing. */
  lemma {:induction false} TotalGap(p: Program, n: nat, k: nat)
    requires n <= k && forall id | id in p :: id < n
    ensures TotalWidth(p, k) == TotalWidth(p, n)
    decreases k
  {
    if n < k { TotalGap(p, n, k - 1); }
  }

  lemma {:induction false} TotalInsert(p: Program, n: nat, k: nat, ins: Instr)
    requires n <= k && forall id | id in p :: id < n
    ensures TotalWidth(p[k := ins], k + 1) == TotalWidth(p, n) + ins.width
  {
    TotalGap(p, n, k);
    TotalSame(p, p[k := ins], k);
  }

  lemma {:induction false} TotalRemove(p: Program, n: nat, id: Id)
    requires id in p && id < n
    ensures TotalWidth(p, n) == TotalWidth(p - {id}, n) + p[id].width
  {
    if id == n - 1 {
      TotalSame(p, p - {id}, n - 1);
    } else {
      TotalRemove(p, n - 1, id);
    }
  }

  lemma {:induction false} TotalReplace(p: Program, n: nat, t: Id, res: Value)
    ensures TotalWidth(ReplaceAllUses(p, t, res), n) == TotalWidth(p, n)
  {
    TotalSame(p, ReplaceAllUses(p, t, res), n);
  }
}
