/** Facts that hold only where the trunc is reached are not enough: a function in which the pass, told
    the truth about the trunc, makes a division trap on a path that never gets to it. */
module TruncContext {
  import opened Bits
  import opened Ir
  import opened TruncDag
  import opened TruncRewrite
  import opened TruncImplements
  import opened TruncErase
  import opened TruncBest
  import opened TruncChoice

  /** x : i12; y = zext x to i16; z = y udiv y; and, past a branch, trunc z to i8. */
  const BEFORE: Program := map[
    0 := Opaque([], 12),
    1 := Cast(ZExt, Ref(0), 16),
    2 := Bin(UDiv, NO_FLAGS, Ref(1), Ref(1), 16),
    3 := Cast(Trunc, Ref(2), 8)]

  const AFTER: Program := map[
    0 := Opaque([], 12),
    4 := Cast(Trunc, Ref(0), 8),
    5 := Bin(UDiv, NO_FLAGS, Ref(4), Ref(4), 8)]

  const RANK: map<Id, nat> := map[0 := 0, 1 := 1, 2 := 2, 3 := 3]

  const DAG: seq<Id> := [1, 2]

  const NEW_VALUES: map<Id, Value> := map[1 := Ref(4), 2 := Ref(5)]

  /** The trunc stands in a place of its own. */
  function Home(id: Id): nat { if id == 3 then 1 else 0 }

  /** The branch to the trunc is taken only for x below 256. */
  ghost predicate Guarded(w: World) {
    w.home == Home && (1 in w.reach ==> 0 in w.env && w.env[0].Int? && w.env[0].n < 256)
  }

  /** The analysis that knows about the guard. */
  function GuardedMax(p: Program, t: Id, v: Value): nat {
    if p == BEFORE && t == 3 && v == Ref(1) then 255 else Pow2(WidthOf(p, v))
  }

  const GUARDED_ORACLE := Oracle(GuardedMax, (p, t, v) => 1)

  /** What it says at the trunc is true in every run that gets there. */
  lemma {:induction false} OracleIsSound(w: World)
    requires Guarded(w)
    ensures Sound(GUARDED_ORACLE, AtContext, w)
  {
    hide World.Runs, BoundOk;
    forall p: Program, t: Id, val: Valuation, v: Value | w.Runs(p, val) && t in p && w.Executed(t)
      ensures BoundOk(GUARDED_ORACLE, p, t, val, v)
    {
      if p == BEFORE && t == 3 && v == Ref(1) {
        GuardedBound(w, val);
      } else {
        CluelessIsRight(w, p, t, val, v);
        SameBound(p, t, val, v);
      }
    }
  }

  lemma SameBound(p: Program, t: Id, val: Valuation, v: Value)
    requires BoundOk(CLUELESS, p, t, val, v) && !(p == BEFORE && t == 3 && v == Ref(1))
    ensures BoundOk(GUARDED_ORACLE, p, t, val, v)
  {
  }

  lemma {:induction false} SmallPowersOfTwo()
    ensures Pow2(0) == 1 && Pow2(7) == 128 && Pow2(8) == 256 && Pow2(12) == 4096 && Pow2(15) == 32768
            && Pow2(16) == 65536
  {
    assert Pow2(1) == 2 && Pow2(2) == 4 && Pow2(3) == 8 && Pow2(4) == 16 && Pow2(5) == 32 && Pow2(6) == 64;
    assert Pow2(9) == 512 && Pow2(10) == 1024 && Pow2(11) == 2048 && Pow2(13) == 8192 && Pow2(14) == 16384;
  }

  lemma {:induction false} GuardedBound(w: World, val: Valuation)
    requires Guarded(w) && w.Runs(BEFORE, val) && w.Executed(3)
    ensures BoundOk(GUARDED_ORACLE, BEFORE, 3, val, Ref(1))
  {
    hide Acyclic, World.Dominated, Pow2;
    SmallPowersOfTwo();
    assert val[0] == Int(w.env[0].n % 4096);
    assert val[1] == val[0];
  }

  // ----- the reduction -----

  lemma {:induction false} BeforeOk()
    ensures WellTyped(BEFORE) && Ranked(BEFORE, RANK)
  {
    hide Pow2, InRange;
  }

  lemma {:induction false} AfterOk()
    ensures WellTyped(AFTER)
  {
    hide Pow2, InRange;
  }

  lemma {:induction false} DagIsThere()
    ensures IsDag(BEFORE, Ref(2), DAG)
  {
    assert Edge(BEFORE, 2, 1);
    ReachesSelf(BEFORE, 2);
    ReachesStep(BEFORE, 2, 2, 1);
    forall id | Reaches(BEFORE, 2, id) ensures id in DAG {
      var path :| PathTo(BEFORE, path, 2, id);
      ReachesStaysIn(BEFORE, 2, path, id, {1, 2});
    }
  }

  lemma {:induction false} ActiveBitsOf255()
    ensures ActiveBits(255) == 8
  {
    assert ActiveBits(1) == 1 && ActiveBits(3) == 2 && ActiveBits(7) == 3 && ActiveBits(15) == 4;
    assert ActiveBits(31) == 5 && ActiveBits(63) == 6 && ActiveBits(127) == 7;
  }

  /** The pass would reduce the dag to 8 bits. */
  lemma {:induction false} ReductionChosen()
    ensures Chosen(GUARDED_ORACLE, BEFORE, 3, DAG, [8, 16], 8) && Reducible(GUARDED_ORACLE, BEFORE, 3, DAG, 8)
  {
    hide Pow2, UsedOutside, ActiveBits, IsDag;
    DagIsThere();
    SmallPowersOfTwo();
    ActiveBitsOf255();
    assert Requirement(GUARDED_ORACLE, BEFORE, 3, 16, BEFORE[1]) == 0;
    assert Requirement(GUARDED_ORACLE, BEFORE, 3, 16, BEFORE[2]) == 8;
    assert IsNeed(GUARDED_ORACLE, BEFORE, 3, DAG, 8);
    assert ChosenWidth([8, 16], 8, 8, 16) == 8;
    forall I | I in DAG ensures !UsedOutside(BEFORE, 3, DAG, I) { NotUsedOutside(I); }
  }

  lemma {:induction false} NotUsedOutside(I: Id)
    requires I in DAG
    ensures !UsedOutside(BEFORE, 3, DAG, I)
  {
  }

  /** What it makes of the function is AFTER. */
  lemma {:induction false} ReductionMakes()
    ensures Rewritten(BEFORE, AFTER, 3, DAG, NEW_VALUES, Ref(5), 8)
    ensures Added(Home, BEFORE, AFTER, 3, DAG, NEW_VALUES, Ref(5), 8)
  {
    hide Pow2, Lowered, OnlyMade, Inserted;
    NodesLowered();
    NodesInserted();
    assert ReplacedIn(BEFORE[0], 3, Ref(5)).ops == [];
  }

  lemma {:induction false} NodesLowered()
    ensures Lowered(BEFORE, AFTER, NEW_VALUES, 8, 1) && Lowered(BEFORE, AFTER, NEW_VALUES, 8, 2)
  {
    hide Pow2;
  }

  lemma {:induction false} NodesInserted()
    ensures Inserted(Home, BEFORE, NEW_VALUES, 8, 1) && Inserted(Home, BEFORE, NEW_VALUES, 8, 2)
    ensures OnlyMade(BEFORE, AFTER, NEW_VALUES, Ref(5))
  {
    assert NEW_VALUES[1] == Ref(4) && NEW_VALUES[2] == Ref(5);
  }

  // ----- the run that goes wrong -----

  /** x is 256, and the trunc is not reached. */
  const WRONG := World(map[0 := Int(256)], Home, {0})

  const VALUES_BEFORE: Valuation := map[0 := Int(256), 1 := Int(256), 2 := Int(1), 3 := Int(1)]

  const VALUES_AFTER: Valuation := map[0 := Int(256), 4 := Int(0), 5 := UB]

  lemma {:induction false} StepsBefore()
    ensures EvalCast(ZExt, 12, 16, Int(256)) == Int(256) && EvalCast(Trunc, 16, 8, Int(1)) == Int(1)
    ensures EvalBin(UDiv, NO_FLAGS, 16, Int(256), Int(256)) == Int(1)
  {
    hide Pow2;
    SmallPowersOfTwo();
    QuotientIsUnique(1, 256, 0);
  }

  lemma {:induction false} ModelBefore()
    ensures WellTyped(BEFORE) && Model(BEFORE, WRONG.env, VALUES_BEFORE)
  {
    hide Pow2, EvalBin, EvalCast;
    BeforeOk();
    SmallPowersOfTwo();
    StepsBefore();
  }

  lemma {:induction false} ModelAfter()
    ensures WellTyped(AFTER) && Model(AFTER, WRONG.env, VALUES_AFTER)
  {
    hide Pow2;
    AfterOk();
    SmallPowersOfTwo();
  }

  lemma {:induction false} WrongRuns()
    ensures WRONG.Runs(BEFORE, VALUES_BEFORE) && Guarded(WRONG)
    ensures WellTyped(AFTER) && Model(AFTER, WRONG.env, VALUES_AFTER)
    ensures UBFree(WRONG, BEFORE, VALUES_BEFORE) && !UBFree(WRONG, AFTER, VALUES_AFTER)
  {
    hide *;
    ModelBefore();
    ModelAfter();
    WrongIsDominated();
    WrongTraps();
  }

  lemma {:induction false} WrongIsDominated()
    ensures WellTyped(BEFORE) && Model(BEFORE, WRONG.env, VALUES_BEFORE) ==> WRONG.Runs(BEFORE, VALUES_BEFORE)
    ensures Guarded(WRONG)
  {
    hide Model, WellTyped;
    BeforeOk();
    assert Acyclic(BEFORE);
  }

  lemma {:induction false} WrongTraps()
    ensures UBFree(WRONG, BEFORE, VALUES_BEFORE) && !UBFree(WRONG, AFTER, VALUES_AFTER)
  {
    assert VALUES_AFTER[5] == UB && WRONG.Executed(5) && 5 in AFTER;
  }

  /** The oracle is sound at the trunc in every guarded run, the pass reduces the dag, and the result
      does not implement the function: the division is not where the trunc is, and its divisor may become 0. */
  lemma {:induction false} ContextIsNotEnough()
    ensures forall w | Guarded(w) :: Sound(GUARDED_ORACLE, AtContext, w)
    ensures Chosen(GUARDED_ORACLE, BEFORE, 3, DAG, [8, 16], 8)
    ensures Rewritten(BEFORE, AFTER, 3, DAG, NEW_VALUES, Ref(5), 8)
    ensures Added(Home, BEFORE, AFTER, 3, DAG, NEW_VALUES, Ref(5), 8)
    ensures WellTyped(AFTER) && !Implements(GUARDED_ORACLE, AtContext, Home, BEFORE, AFTER)
    ensures !DividesAtTrunc(Home, BEFORE, 3, DAG)
    ensures WellTyped(BEFORE) && Ranked(BEFORE, RANK) && !DivisorsOk(Home, BEFORE, RANK, 3, DAG, 8)
  {
    hide *;
    forall w | Guarded(w) ensures Sound(GUARDED_ORACLE, AtContext, w) { OracleIsSound(w); }
    ReductionChosen();
    ReductionMakes();
    NotImplemented();
    DivideElsewhere();
    BeforeOk();
    AfterOk();
    if DivisorsOk(Home, BEFORE, RANK, 3, DAG, 8) {
      ReductionImplements(GUARDED_ORACLE, AtContext, Home, BEFORE, RANK, 3, DAG, 8, AFTER, NEW_VALUES, Ref(5));
      assert false;
    }
  }

  lemma {:induction false} NotImplemented()
    ensures WellTyped(AFTER) && !Implements(GUARDED_ORACLE, AtContext, Home, BEFORE, AFTER)
  {
    hide World.Runs, Model, UBFree, Sound, World.Dominated, SameObservers, WellTyped, GuardedMax, Pow2, Guarded;
    WrongRuns();
    OracleIsSound(WRONG);
    assert WRONG.home == Home;
    assert !Preserves(WRONG, BEFORE, VALUES_BEFORE, AFTER, VALUES_AFTER);
  }

  lemma {:induction false} DivideElsewhere()
    ensures !DividesAtTrunc(Home, BEFORE, 3, DAG)
  {
    assert 2 in DAG && IsDivide(BEFORE[2]);
  }
}
