/** Which arguments and results are live: the survey of dead argument elimination, its multimap of
    postponed decisions, and the recursive marking that drains it. */
module DeadArgSurvey {
  import opened Collections
  import opened Calls
  import opened Liveness
  import opened LiveUses
  import opened Keep

  // ----- specification vocabulary -----

  type Edges = set<(RetOrArg, RetOrArg)>

  type UseMap = map<RetOrArg, seq<RetOrArg>>

  /** Every set of values that liveness could settle on contains this one. */
  ghost predicate Needed(p: Program, ra: RetOrArg) {
    forall x: set<RetOrArg> | Closed(p, x) :: ra in x
  }

  /** Some use of v is live as soon as d is. */
  ghost predicate EdgeOk(p: Program, d: RetOrArg, v: RetOrArg) {
    exists fact :: fact in AllFacts(p) && About(p, fact, v) && d in Demands(p, fact.use)
  }

  /** Nothing makes v live by itself, and everything that could is recorded. */
  ghost predicate Covered(p: Program, edges: Edges, v: RetOrArg) {
    IsValue(p, v) && !Intrinsic(p, v)
    && forall fact | fact in AllFacts(p) && About(p, fact, v) :: UseRecorded(p, edges, fact.use, v)
  }

  ghost predicate UseRecorded(p: Program, edges: Edges, u: Use, v: RetOrArg) {
    !u.OtherUse? && forall d | d in Demands(p, u) :: (d, v) in edges
  }

  predicate LiveIn(functions: set<FnId>, values: set<RetOrArg>, ra: RetOrArg) {
    ra.f in functions || ra in values
  }

  function AllLive(p: Program, functions: set<FnId>, values: set<RetOrArg>): (s: set<RetOrArg>)
    ensures forall ra :: ra in s <==> IsValue(p, ra) && LiveIn(functions, values, ra)
  {
    set ra | ra in Values(p, |p|) && LiveIn(functions, values, ra)
  }

  /** The live part of the state is justified and concerns surveyed values. */
  ghost predicate LiveOk(p: Program, functions: set<FnId>, values: set<RetOrArg>, surveyed: set<RetOrArg>) {
    (forall f | f in functions :: f < |p| && p[f].pinned)
    && (forall v | v in values :: IsValue(p, v) && v in surveyed && Needed(p, v))
  }

  ghost predicate EdgesOk(p: Program, edges: Edges, surveyed: set<RetOrArg>) {
    forall d, v | (d, v) in edges :: IsValue(p, d) && IsValue(p, v) && v in surveyed && EdgeOk(p, d, v)
  }

  /** The multimap holds recorded edges only, and every edge whose value is not live yet. */
  ghost predicate PendingOk(functions: set<FnId>, values: set<RetOrArg>, uses: UseMap, edges: Edges) {
    (forall d | d in uses :: uses[d] != [])
    && (forall d, v | d in uses && v in uses[d] :: (d, v) in edges)
    && (forall d, v | (d, v) in edges :: LiveIn(functions, values, v) || (d in uses && v in uses[d]))
  }

  /** Entries of live keys remain only where they are being drained. */
  ghost predicate DrainedOk(functions: set<FnId>, values: set<RetOrArg>, uses: UseMap, active: set<RetOrArg>) {
    (forall d | d in uses && LiveIn(functions, values, d) :: d in active)
    && (forall d | d in active :: LiveIn(functions, values, d))
  }

  ghost predicate SettledOk(p: Program, functions: set<FnId>, values: set<RetOrArg>, edges: Edges,
                            settled: set<RetOrArg>) {
    forall v | v in settled :: LiveIn(functions, values, v) || Covered(p, edges, v)
  }

  /** All of it together. */
  ghost predicate State(p: Program, functions: set<FnId>, values: set<RetOrArg>, uses: UseMap, edges: Edges,
                        surveyed: set<RetOrArg>, settled: set<RetOrArg>, active: set<RetOrArg>) {
    LiveOk(p, functions, values, surveyed)
    && EdgesOk(p, edges, surveyed)
    && PendingOk(functions, values, uses, edges)
    && DrainedOk(functions, values, uses, active)
    && SettledOk(p, functions, values, edges, settled)
  }

  // ----- small facts -----

  lemma PinnedIsNeeded(p: Program, v: RetOrArg)
    requires IsValue(p, v) && Intrinsic(p, v)
    ensures Needed(p, v)
  {
  }

  lemma EdgeIsNeeded(p: Program, d: RetOrArg, v: RetOrArg)
    requires Needed(p, d) && EdgeOk(p, d, v) && IsValue(p, v)
    ensures Needed(p, v)
  {
    forall x: set<RetOrArg> | Closed(p, x) ensures v in x {
      var fact :| fact in AllFacts(p) && About(p, fact, v) && d in Demands(p, fact.use);
      assert UseLive(p, x, fact.use);
      assert HasLiveUse(p, x, v);
    }
  }

  lemma LiveDemandIsNeeded(p: Program, functions: set<FnId>, values: set<RetOrArg>, uses: UseMap, edges: Edges,
                           surveyed: set<RetOrArg>, settled: set<RetOrArg>, d: RetOrArg, v: RetOrArg)
    requires State(p, functions, values, uses, edges, surveyed, settled, {})
    requires LiveIn(functions, values, d) && IsValue(p, d) && EdgeOk(p, d, v) && IsValue(p, v)
    ensures Needed(p, v)
  {
    if d.f in functions {
      PinnedIsNeeded(p, d);
    }
    EdgeIsNeeded(p, d, v);
  }

  /** A use that is live already makes its value live in every solution. */
  lemma LiveUseIsNeeded(p: Program, functions: set<FnId>, values: set<RetOrArg>, surveyed: set<RetOrArg>, fact: Fact,
                        v: RetOrArg)
    requires LiveOk(p, functions, values, surveyed)
    requires FactOk(p, fact) && fact in AllFacts(p) && About(p, fact, v) && IsValue(p, v)
    requires UseLive(p, AllLive(p, functions, values), fact.use)
    ensures Needed(p, v)
  {
    forall x: set<RetOrArg> | Closed(p, x) ensures v in x {
      if fact.use.OtherUse? {
        assert UseLive(p, x, fact.use);
      } else {
        var d :| d in Demands(p, fact.use) && d in AllLive(p, functions, values);
        if d.f in functions {
          PinnedIsNeeded(p, d);
        }
        assert d in x;
        assert UseLive(p, x, fact.use);
      }
      assert HasLiveUse(p, x, v);
    }
  }

  /** Nothing pending at a live key means that liveness has spread everywhere it must. */
  lemma DrainedIsClosed(p: Program, functions: set<FnId>, values: set<RetOrArg>, uses: UseMap, edges: Edges,
                        surveyed: set<RetOrArg>, settled: set<RetOrArg>)
    requires PendingOk(functions, values, uses, edges) && DrainedOk(functions, values, uses, {})
    requires SettledOk(p, functions, values, edges, settled)
    requires forall v | IsValue(p, v) :: v in settled
    ensures Closed(p, AllLive(p, functions, values))
  {
    var live := AllLive(p, functions, values);
    forall v | IsValue(p, v) && (Intrinsic(p, v) || HasLiveUse(p, live, v)) ensures v in live {
      if Covered(p, edges, v) {
        var fact :| fact in AllFacts(p) && About(p, fact, v) && UseLive(p, live, fact.use);
        assert UseRecorded(p, edges, fact.use, v);
        var d :| d in Demands(p, fact.use) && d in live;
        assert (d, v) in edges;
      }
    }
  }

  lemma DrainedIsLeast(p: Program, functions: set<FnId>, values: set<RetOrArg>, uses: UseMap, edges: Edges,
                        surveyed: set<RetOrArg>, settled: set<RetOrArg>)
    requires LiveOk(p, functions, values, surveyed)
    requires PendingOk(functions, values, uses, edges) && DrainedOk(functions, values, uses, {})
    requires SettledOk(p, functions, values, edges, settled)
    requires forall v | IsValue(p, v) :: v in settled
    ensures IsLeastLive(p, AllLive(p, functions, values))
  {
    DrainedIsClosed(p, functions, values, uses, edges, surveyed, settled);
    forall x: set<RetOrArg>, v | Closed(p, x) && v in AllLive(p, functions, values) ensures v in x {
      if v.f in functions {
        PinnedIsNeeded(p, v);
      }
    }
  }

  // ----- steps of the marking -----

  lemma PendingIsKnown(p: Program, functions: set<FnId>, values: set<RetOrArg>, uses: UseMap, edges: Edges,
                       surveyed: set<RetOrArg>, settled: set<RetOrArg>, active: set<RetOrArg>, d: RetOrArg, v: RetOrArg)
    requires State(p, functions, values, uses, edges, surveyed, settled, active)
    requires d in uses && v in uses[d]
    ensures IsValue(p, v) && v in surveyed && EdgeOk(p, d, v)
  {
    assert (d, v) in edges;
  }

  lemma MarkingKeepsState(p: Program, functions: set<FnId>, values: set<RetOrArg>, uses: UseMap, edges: Edges,
                          surveyed: set<RetOrArg>, settled: set<RetOrArg>, active: set<RetOrArg>, ra: RetOrArg)
    requires State(p, functions, values, uses, edges, surveyed, settled, active)
    requires IsValue(p, ra) && ra in surveyed && Needed(p, ra)
    ensures State(p, functions, values + {ra}, uses, edges, surveyed, settled, active + {ra})
  {
  }

  lemma ErasingKeepsState(p: Program, functions: set<FnId>, values: set<RetOrArg>, uses: UseMap, edges: Edges,
                          surveyed: set<RetOrArg>, settled: set<RetOrArg>, active: set<RetOrArg>, ra: RetOrArg)
    requires State(p, functions, values, uses, edges, surveyed, settled, active)
    requires ra in uses ==> forall v | v in uses[ra] :: LiveIn(functions, values, v)
    ensures State(p, functions, values, uses - {ra}, edges, surveyed, settled, active - {ra})
  {
  }

  lemma PinningKeepsState(p: Program, functions: set<FnId>, values: set<RetOrArg>, uses: UseMap, edges: Edges,
                          surveyed: set<RetOrArg>, settled: set<RetOrArg>, f: FnId)
    requires State(p, functions, values, uses, edges, surveyed, settled, {})
    requires f < |p| && p[f].pinned && forall v | v in ValuesOf(p, f) :: v !in surveyed
    ensures State(p, functions + {f}, values, uses, edges, surveyed + ValuesOf(p, f),
                  settled + ValuesOf(p, f), ValuesOf(p, f))
  {
    forall d | d in uses && LiveIn(functions + {f}, values, d) ensures d in ValuesOf(p, f) {
      assert (d, uses[d][0]) in edges;
    }
  }

  lemma RecordingKeepsState(p: Program, functions: set<FnId>, values: set<RetOrArg>, uses: UseMap, edges: Edges,
                            surveyed: set<RetOrArg>, settled: set<RetOrArg>, d: RetOrArg, v: RetOrArg)
    requires State(p, functions, values, uses, edges, surveyed, settled, {})
    requires IsValue(p, d) && IsValue(p, v) && v in surveyed && EdgeOk(p, d, v) && !LiveIn(functions, values, d)
    ensures State(p, functions, values, Recorded(uses, d, v), edges + {(d, v)}, surveyed, settled, {})
  {
  }

  /** Inserting a pair into the multimap. */
  function Recorded(uses: UseMap, d: RetOrArg, v: RetOrArg): UseMap {
    uses[d := (if d in uses then uses[d] else []) + [v]]
  }

  lemma SettlingKeepsState(p: Program, functions: set<FnId>, values: set<RetOrArg>, uses: UseMap, edges: Edges,
                           surveyed: set<RetOrArg>, settled: set<RetOrArg>, v: RetOrArg)
    requires State(p, functions, values, uses, edges, surveyed, settled, {})
    requires LiveIn(functions, values, v) || Covered(p, edges, v)
    ensures State(p, functions, values, uses, edges, surveyed, settled + {v}, {})
  {
  }

  lemma BeginningKeepsState(p: Program, functions: set<FnId>, values: set<RetOrArg>, uses: UseMap, edges: Edges,
                            surveyed: set<RetOrArg>, settled: set<RetOrArg>, v: RetOrArg)
    requires State(p, functions, values, uses, edges, surveyed, settled, {})
    ensures State(p, functions, values, uses, edges, surveyed + {v}, settled, {})
    ensures v !in surveyed && IsValue(p, v) && !Intrinsic(p, v) ==> !LiveIn(functions, values, v)
  {
  }

  // ----- what a survey of one value's uses yields -----

  /** Every use of v demands only noted values, and every noted value is demanded by a use. */
  ghost predicate Noted(p: Program, v: RetOrArg, maybe: seq<RetOrArg>) {
    IsValue(p, v) && !Intrinsic(p, v)
    && (forall fact | fact in AllFacts(p) && About(p, fact, v) :: UseNoted(p, fact.use, maybe))
    && AllDemanded(p, v, maybe)
  }

  ghost predicate UseNoted(p: Program, u: Use, maybe: seq<RetOrArg>) {
    !u.OtherUse? && forall d | d in Demands(p, u) :: d in maybe
  }

  ghost predicate AllDemanded(p: Program, v: RetOrArg, maybe: seq<RetOrArg>) {
    forall d | d in maybe :: IsValue(p, d) && EdgeOk(p, d, v)
  }

  /** The same after some of the facts: either v is known to be live, or all is noted. */
  ghost predicate Progress(p: Program, v: RetOrArg, facts: seq<Fact>, live: bool, maybe: seq<RetOrArg>) {
    if live then Needed(p, v)
    else AllDemanded(p, v, maybe) && forall fact | fact in facts && About(p, fact, v) :: UseNoted(p, fact.use, maybe)
  }

  lemma ProgressDone(p: Program, v: RetOrArg, live: bool, maybe: seq<RetOrArg>)
    requires Progress(p, v, AllFacts(p), live, maybe) && IsValue(p, v) && !Intrinsic(p, v)
    ensures if live then Needed(p, v) else Noted(p, v, maybe)
  {
  }

  lemma ProgressElsewhere(p: Program, v: RetOrArg, facts: seq<Fact>, fact: Fact, live: bool, maybe: seq<RetOrArg>)
    requires Progress(p, v, facts, live, maybe) && (About(p, fact, v) ==> live)
    ensures Progress(p, v, facts + [fact], live, maybe)
  {
  }

  lemma ProgressNoted(p: Program, v: RetOrArg, facts: seq<Fact>, fact: Fact, maybe: seq<RetOrArg>)
    requires Progress(p, v, facts, false, maybe) && !fact.use.OtherUse?
    requires fact in AllFacts(p) && FactOk(p, fact) && About(p, fact, v)
    ensures Progress(p, v, facts + [fact], false, maybe + Demands(p, fact.use))
  {
    var more := maybe + Demands(p, fact.use);
    forall d | d in more ensures IsValue(p, d) && EdgeOk(p, d, v) {
    }
    forall other | other in facts + [fact] && About(p, other, v) ensures UseNoted(p, other.use, more) {
      assert other != fact ==> UseNoted(p, other.use, maybe);
    }
  }

  lemma NothingYet(p: Program, v: RetOrArg)
    ensures Progress(p, v, [], false, [])
  {
  }

  /** Once v is known to be live, what has been noted no longer matters. */
  lemma LiveProgress(p: Program, v: RetOrArg, facts: seq<Fact>, more: seq<Fact>, maybe: seq<RetOrArg>)
    ensures Progress(p, v, facts, true, maybe) ==> Progress(p, v, more, true, [])
    ensures forall any: seq<RetOrArg> | Progress(p, v, more, true, []) :: Progress(p, v, more, true, any)
  {
  }

  lemma NotedIsCovered(p: Program, v: RetOrArg, maybe: seq<RetOrArg>, edges: Edges)
    requires Noted(p, v, maybe) && forall d | d in maybe :: (d, v) in edges
    ensures Covered(p, edges, v)
  {
    forall fact | fact in AllFacts(p) && About(p, fact, v) ensures UseRecorded(p, edges, fact.use, v) {
      assert UseNoted(p, fact.use, maybe);
    }
  }

  /** The size of what is not live yet. */
  ghost function Unmarked(p: Program, values: set<RetOrArg>): nat { |Values(p, |p|) - values| }

  lemma MarkingShrinks(p: Program, values: set<RetOrArg>, more: set<RetOrArg>)
    requires values <= more
    ensures Unmarked(p, more) <= Unmarked(p, values)
    ensures forall ra | ra in more && ra !in values && IsValue(p, ra) :: Unmarked(p, more) < Unmarked(p, values)
  {
    SubsetSize(Values(p, |p|) - more, Values(p, |p|) - values);
    forall ra | ra in more && ra !in values && IsValue(p, ra) ensures Unmarked(p, more) < Unmarked(p, values) {
      SubsetSize(Values(p, |p|) - more, Values(p, |p|) - values - {ra});
    }
  }

  // ----- the pass's state -----

  class DeadArgSurveyor {
    const p: Program
    var liveValues: set<RetOrArg>
    var liveFunctions: set<FnId>
    var uses: UseMap
    ghost var edges: Edges
    /** The values whose survey has begun, and those whose survey is over. */
    ghost var surveyed: set<RetOrArg>
    ghost var settled: set<RetOrArg>

    ghost predicate Inv(active: set<RetOrArg>)
      reads this
    {
      State(p, liveFunctions, liveValues, uses, edges, surveyed, settled, active)
    }

    predicate IsLive(ra: RetOrArg)
      reads this
    {
      LiveIn(liveFunctions, liveValues, ra)
    }

    ghost function LiveSet(): set<RetOrArg>
      reads this
    {
      AllLive(p, liveFunctions, liveValues)
    }

    constructor (p: Program)
      ensures this.p == p && Inv({}) && surveyed == {} && settled == {} && liveFunctions == {} && LiveSet() == {}
    {
      this.p := p;
      liveValues, liveFunctions, uses := {}, {}, map[];
      edges, surveyed, settled := {}, {}, {};
    }

    // ----- spreading liveness -----

    /** What marking keeps: liveness only grows, the entries being drained are left alone. */
    twostate predicate Spread(active: set<RetOrArg>)
      reads this
    {
      old(liveValues) <= liveValues && liveFunctions == old(liveFunctions) && edges == old(edges)
      && surveyed == old(surveyed) && settled == old(settled)
      && forall d | d in active :: (d in uses <==> d in old(uses)) && (d in uses ==> uses[d] == old(uses)[d])
    }

    /** MarkLive on a value. */
    method MarkLive(ra: RetOrArg, ghost active: set<RetOrArg>)
      requires Inv(active) && IsValue(p, ra) && ra in surveyed && Needed(p, ra)
      modifies this
      ensures Inv(active) && IsLive(ra) && Spread(active)
      decreases Unmarked(p, liveValues), 0
    {
      hide State, Needed, Unmarked;
      if IsLive(ra) {
        return;
      }
      MarkingKeepsState(p, liveFunctions, liveValues, uses, edges, surveyed, settled, active, ra);
      MarkingShrinks(p, liveValues, liveValues + {ra});
      ActiveIsLive(active);
      liveValues := liveValues + {ra};
      PropagateLiveness(ra, active + {ra});
      assert active + {ra} - {ra} == active;
    }

    lemma ActiveIsLive(active: set<RetOrArg>)
      requires Inv(active)
      ensures forall d | d in active :: IsLive(d)
    {
    }

    /** Draining the entries of ra. */
    method PropagateLiveness(ra: RetOrArg, ghost active: set<RetOrArg>)
      requires Inv(active) && ra in active && Needed(p, ra)
      modifies this
      ensures Inv(active - {ra}) && Spread(active - {ra})
      decreases Unmarked(p, liveValues), 1
    {
      hide State, Needed, Unmarked;
      var i := 0;
      while ra in uses && i < |uses[ra]|
        invariant Inv(active) && Spread(active)
        invariant ra in uses ==> i <= |uses[ra]|
        invariant ra in uses ==> forall j | 0 <= j < i :: IsLive(uses[ra][j])
      {
        var v := uses[ra][i];
        PendingIsKnown(p, liveFunctions, liveValues, uses, edges, surveyed, settled, active, ra, v);
        EdgeIsNeeded(p, ra, v);
        MarkingShrinks(p, old(liveValues), liveValues);
        MarkLive(v, active);
        i := i + 1;
      }
      ErasingKeepsState(p, liveFunctions, liveValues, uses, edges, surveyed, settled, active, ra);
      uses := uses - {ra};
    }

    /** MarkLive on a function: nothing about it may change. */
    method MarkFunctionLive(f: FnId)
      requires Inv({}) && f < |p| && p[f].pinned && (forall v | v in ValuesOf(p, f) :: v !in surveyed)
      modifies this
      ensures Inv({}) && liveFunctions == old(liveFunctions) + {f}
      ensures surveyed == old(surveyed) + ValuesOf(p, f) && settled == old(settled) + ValuesOf(p, f)
    {
      hide State, Needed, Unmarked;
      ghost var all := ValuesOf(p, f);
      PinningKeepsState(p, liveFunctions, liveValues, uses, edges, surveyed, settled, f);
      forall v | v in all ensures Needed(p, v) {
        PinnedIsNeeded(p, v);
      }
      liveFunctions := liveFunctions + {f};
      surveyed, settled := surveyed + all, settled + all;
      ghost var drained: set<RetOrArg> := {};
      assert all - drained == all;
      for i := 0 to p[f].nparams
        invariant Inv(all - drained) && drained == set j: nat | j < i :: Arg(f, j)
        invariant liveFunctions == old(liveFunctions) + {f}
        invariant surveyed == old(surveyed) + all && settled == old(settled) + all
      {
        PropagateLiveness(Arg(f, i), all - drained);
        assert all - drained - {Arg(f, i)} == all - (drained + {Arg(f, i)});
        drained := drained + {Arg(f, i)};
      }
      ghost var args := drained;
      for i := 0 to p[f].nrets
        invariant Inv(all - drained) && drained == args + set j: nat | j < i :: Ret(f, j)
        invariant liveFunctions == old(liveFunctions) + {f}
        invariant surveyed == old(surveyed) + all && settled == old(settled) + all
      {
        PropagateLiveness(Ret(f, i), all - drained);
        assert all - drained - {Ret(f, i)} == all - (drained + {Ret(f, i)});
        drained := drained + {Ret(f, i)};
      }
      assert all - drained == {};
    }

    /** MarkValue: settles ra as live, or records what would make it live. */
    method MarkValue(ra: RetOrArg, live: bool, maybe: seq<RetOrArg>)
      requires Inv({}) && IsValue(p, ra) && ra !in surveyed
      requires live ==> Needed(p, ra)
      requires !live ==> Noted(p, ra, maybe)
      modifies this
      ensures Inv({}) && surveyed == old(surveyed) + {ra} && settled == old(settled) + {ra}
      ensures liveFunctions == old(liveFunctions) && old(liveValues) <= liveValues
      ensures live ==> IsLive(ra)
    {
      hide State, Needed, Unmarked, EdgeOk;
      BeginningKeepsState(p, liveFunctions, liveValues, uses, edges, surveyed, settled, ra);
      surveyed := surveyed + {ra};
      if live {
        MarkLive(ra, {});
      } else {
        assert !IsLive(ra);
        var i := 0;
        while i < |maybe|
          invariant i <= |maybe| && Inv({}) && surveyed == old(surveyed) + {ra} && settled == old(settled)
          invariant liveFunctions == old(liveFunctions) && liveValues == old(liveValues)
          invariant forall d | d in maybe[..i] :: (d, ra) in edges
        {
          var d := maybe[i];
          assert d in maybe;
          if IsLive(d) {
            LiveDemandIsNeeded(p, liveFunctions, liveValues, uses, edges, surveyed, settled, d, ra);
            MarkLive(ra, {});
            break;
          }
          RecordingKeepsState(p, liveFunctions, liveValues, uses, edges, surveyed, settled, d, ra);
          uses := Recorded(uses, d, ra);
          edges := edges + {(d, ra)};
          i := i + 1;
        }
        if !IsLive(ra) {
          assert maybe[..i] == maybe;
          NotedIsCovered(p, ra, maybe, edges);
        }
      }
      SettlingKeepsState(p, liveFunctions, liveValues, uses, edges, surveyed, settled, ra);
      settled := settled + {ra};
    }

    // ----- looking at uses -----

    /** MarkIfNotLive: whether u is live; if not, it is noted. */
    method MarkIfNotLive(u: RetOrArg, maybe: seq<RetOrArg>) returns (live: bool, noted: seq<RetOrArg>)
      ensures live == IsLive(u) && noted == if live then maybe else maybe + [u]
    {
      if IsLive(u) {
        return true, maybe;
      }
      return false, maybe + [u];
    }

    ghost predicate AnyLive(ds: seq<RetOrArg>)
      reads this
    {
      exists d :: d in ds && IsLive(d)
    }

    lemma AnyLiveMore(ds: seq<RetOrArg>, d: RetOrArg)
      ensures AnyLive(ds + [d]) <==> AnyLive(ds) || IsLive(d)
    {
      assert forall x :: x in ds + [d] <==> x in ds || x == d;
    }

    method SurveyUse(u: Use, maybe: seq<RetOrArg>) returns (live: bool, noted: seq<RetOrArg>)
      requires UseOk(p, u)
      ensures live <==> UseLive(p, LiveSet(), u)
      ensures !live ==> noted == maybe + Demands(p, u)
    {
      match u
      case ReturnPart(f, r) =>
        live, noted := MarkIfNotLive(Ret(f, r), maybe);
        assert Demands(p, u)[0] == Ret(f, r);
      case ReturnWhole(f) =>
        live, noted := false, maybe;
        for r := 0 to p[f].nrets
          invariant live <==> AnyLive(Demands(p, u)[..r])
          invariant !live ==> noted == maybe + Demands(p, u)[..r]
        {
          assert Demands(p, u)[..r + 1] == Demands(p, u)[..r] + [Ret(f, r)];
          AnyLiveMore(Demands(p, u)[..r], Ret(f, r));
          var part;
          part, noted := MarkIfNotLive(Ret(f, r), noted);
          if !live {
            live := part;
          }
        }
        assert Demands(p, u)[..p[f].nrets] == Demands(p, u);
        assert forall d | d in Demands(p, u) :: IsValue(p, d);
      case Argument(f, j) =>
        live, noted := MarkIfNotLive(Arg(f, j), maybe);
        assert Demands(p, u)[0] == Arg(f, j);
      case OtherUse =>
        live, noted := true, maybe;
    }

    /** What SurveyUse says of one fact about v. */
    lemma UseSettles(v: RetOrArg, facts: seq<Fact>, fact: Fact, maybe: seq<RetOrArg>, live: bool, noted: seq<RetOrArg>)
      requires Inv({}) && Progress(p, v, facts, false, maybe)
      requires fact in AllFacts(p) && FactOk(p, fact) && About(p, fact, v) && IsValue(p, v)
      requires live <==> UseLive(p, LiveSet(), fact.use)
      requires !live ==> noted == maybe + Demands(p, fact.use)
      ensures Progress(p, v, facts + [fact], live, noted)
    {
      if live {
        LiveUseIsNeeded(p, liveFunctions, liveValues, surveyed, fact, v);
      } else {
        ProgressNoted(p, v, facts, fact, maybe);
      }
    }

    /** SurveyUses, of an argument: stops at the first live use. */
    method SurveyUses(v: RetOrArg) returns (live: bool, maybe: seq<RetOrArg>)
      requires ProgramOk(p) && Inv({}) && IsValue(p, v) && v.Arg?
      ensures Progress(p, v, AllFacts(p), live, maybe)
    {
      hide State, Needed, Progress;
      var facts := AllFacts(p);
      AllFactsOk(p);
      live, maybe := false, [];
      NothingYet(p, v);
      for i := 0 to |facts|
        invariant Progress(p, v, facts[..i], live, maybe) && !live
      {
        assert facts[..i + 1] == facts[..i] + [facts[i]];
        assert facts[i] in AllFacts(p) && FactOk(p, facts[i]);
        if facts[i].ArgUse? && Arg(facts[i].f, facts[i].i) == v {
          var noted;
          live, noted := SurveyUse(facts[i].use, maybe);
          UseSettles(v, facts[..i], facts[i], maybe, live, noted);
          maybe := noted;
          if live {
            LiveProgress(p, v, facts[..i + 1], facts, maybe);
            return;
          }
        } else {
          ProgressElsewhere(p, v, facts[..i], facts[i], live, maybe);
        }
      }
      assert facts[..|facts|] == facts;
    }

    /** A use of a call's whole result applies to every component that is not live yet. */
    method SurveyAggregateUse(f: FnId, ghost facts: seq<Fact>, fact: Fact, retLive: seq<bool>,
                              retUses: seq<seq<RetOrArg>>, numLive: nat)
        returns (retLive': seq<bool>, retUses': seq<seq<RetOrArg>>, numLive': nat)
      requires Inv({}) && f < |p| && fact in AllFacts(p) && FactOk(p, fact) && fact.AggregateUse? && fact.f == f
      requires |retLive| == |retUses| == p[f].nrets && numLive == Count(retLive)
      requires forall r: nat | r < p[f].nrets :: Progress(p, Ret(f, r), facts, retLive[r], retUses[r])
      ensures |retLive'| == |retUses'| == p[f].nrets && numLive' == Count(retLive')
      ensures forall r: nat | r < p[f].nrets :: Progress(p, Ret(f, r), facts + [fact], retLive'[r], retUses'[r])
    {
      hide State, Needed, Progress;
      var n := p[f].nrets;
      var live, noted := SurveyUse(fact.use, []);
      if live {
        CountAll(seq(n, i => true));
        retLive', retUses', numLive' := seq(n, i => true), retUses, n;
      } else {
        retLive', numLive' := retLive, numLive;
        retUses' := seq(n, r requires 0 <= r < n => if retLive[r] then retUses[r] else retUses[r] + noted);
      }
      forall r: nat | r < n ensures Progress(p, Ret(f, r), facts + [fact], retLive'[r], retUses'[r]) {
        if retLive[r] {
          ProgressElsewhere(p, Ret(f, r), facts, fact, true, retUses[r]);
        } else {
          UseSettles(Ret(f, r), facts, fact, retUses[r], live, retUses'[r]);
        }
        LiveProgress(p, Ret(f, r), facts + [fact], facts + [fact], retUses[r]);
      }
    }

    /** The part of SurveyFunction that looks at how the callers of f use its results. */
    method SurveyCallers(f: FnId) returns (retLive: seq<bool>, retUses: seq<seq<RetOrArg>>)
      requires ProgramOk(p) && Inv({}) && f < |p|
      ensures |retLive| == |retUses| == p[f].nrets
      ensures forall r: nat | r < p[f].nrets :: Progress(p, Ret(f, r), AllFacts(p), retLive[r], retUses[r])
    {
      hide State, Needed, Progress, AllFacts, ProgramOk, UseLive, EdgeOk, Demands, AllLive;
      var facts := AllFacts(p);
      AllFactsOk(p);
      var n := p[f].nrets;
      retLive, retUses := seq(n, i => false), seq(n, i => []);
      var numLive := 0;
      CountNone(n);
      forall r: nat | r < n ensures Progress(p, Ret(f, r), [], retLive[r], retUses[r]) {
        NothingYet(p, Ret(f, r));
      }
      for i := 0 to |facts|
        invariant |retLive| == |retUses| == n && numLive == Count(retLive)
        invariant forall r: nat | r < n :: Progress(p, Ret(f, r), facts[..i], retLive[r], retUses[r])
      {
        var fact := facts[i];
        assert facts[..i + 1] == facts[..i] + [fact];
        assert fact in AllFacts(p) && FactOk(p, fact);
        ghost var retLive0, retUses0 := retLive, retUses;
        if numLive != n {
          if fact.ExtractUse? && fact.f == f && !retLive[fact.r] {
            var live, noted := SurveyUse(fact.use, retUses[fact.r]);
            UseSettles(Ret(f, fact.r), facts[..i], fact, retUses[fact.r], live, noted);
            retUses := retUses[fact.r := noted];
            if live {
              CountAfterUpdate(retLive, fact.r);
              retLive, numLive := retLive[fact.r := true], numLive + 1;
            }
          } else if fact.AggregateUse? && fact.f == f {
            retLive, retUses, numLive := SurveyAggregateUse(f, facts[..i], fact, retLive, retUses, numLive);
          }
        }
        forall r: nat | r < n && retLive[r] == retLive0[r] && retUses[r] == retUses0[r]
          && (About(p, fact, Ret(f, r)) ==> retLive[r])
          ensures Progress(p, Ret(f, r), facts[..i + 1], retLive[r], retUses[r])
        {
          ProgressElsewhere(p, Ret(f, r), facts[..i], fact, retLive[r], retUses[r]);
        }
      }
      assert facts[..|facts|] == facts;
    }

    function ArgsOfFn(f: FnId): set<RetOrArg>
      requires f < |p|
    {
      set i: nat | i < p[f].nparams :: Arg(f, i)
    }

    /** The part of SurveyFunction that looks at the arguments. */
    method SurveyArguments(f: FnId)
      requires ProgramOk(p) && Inv({}) && f < |p| && !p[f].pinned && forall v | v in ArgsOfFn(f) :: v !in surveyed
      modifies this
      ensures Inv({}) && liveFunctions == old(liveFunctions)
      ensures surveyed == old(surveyed) + ArgsOfFn(f) && settled == old(settled) + ArgsOfFn(f)
    {
      hide State, Needed, Progress, Noted, AllFacts, ProgramOk, LiveIn, DeadArgSurveyor.IsLive;
      ghost var done: set<RetOrArg> := {};
      for i := 0 to p[f].nparams
        invariant Inv({}) && liveFunctions == old(liveFunctions)
        invariant surveyed == old(surveyed) + done && settled == old(settled) + done
        invariant done == set j: nat | j < i :: Arg(f, j)
      {
        if p[f].fixedArgs {
          PinnedIsNeeded(p, Arg(f, i));
          MarkValue(Arg(f, i), true, []);
        } else {
          var live, maybe := SurveyUses(Arg(f, i));
          ProgressDone(p, Arg(f, i), live, maybe);
          MarkValue(Arg(f, i), live, maybe);
        }
        done := done + {Arg(f, i)};
      }
    }

    /** SurveyFunction: afterwards every argument and result of f is settled. */
    method SurveyFunction(f: FnId)
      requires ProgramOk(p) && Inv({}) && f < |p| && forall v | v in ValuesOf(p, f) :: v !in surveyed
      modifies this
      ensures Inv({}) && liveFunctions == old(liveFunctions) + if p[f].pinned then {f} else {}
      ensures surveyed == old(surveyed) + ValuesOf(p, f) && settled == old(settled) + ValuesOf(p, f)
    {
      hide State, Needed, Progress, Noted, AllFacts, ProgramOk, LiveIn, DeadArgSurveyor.IsLive, Unmarked, Values,
           AllLive;
      var nrets := p[f].nrets;
      if p[f].pinned {
        MarkFunctionLive(f);
        return;
      }
      var retLive, retUses := SurveyCallers(f);
      ghost var done: set<RetOrArg> := {};
      for r := 0 to nrets
        invariant Inv({}) && liveFunctions == old(liveFunctions)
        invariant surveyed == old(surveyed) + done && settled == old(settled) + done
        invariant done == set j: nat | j < r :: Ret(f, j)
      {
        ProgressDone(p, Ret(f, r), retLive[r], retUses[r]);
        MarkValue(Ret(f, r), retLive[r], retUses[r]);
        done := done + {Ret(f, r)};
      }
      SurveyArguments(f);
      assert ValuesOf(p, f) == done + ArgsOfFn(f);
    }

    /** The survey of the whole module, in whatever order the functions come: the live set is the
        least one, and no decision is left postponed on a live value. */
    method Survey(order: seq<FnId>)
      requires ProgramOk(p) && Inv({}) && surveyed == {} && settled == {} && liveFunctions == {}
      requires forall f: FnId | f < |p| :: f in order
      requires forall k, l | 0 <= k < l < |order| :: order[k] != order[l]
      requires forall k | 0 <= k < |order| :: order[k] < |p|
      modifies this
      ensures IsLeastLive(p, LiveSet()) && IsLeastUsed(p, LiveSet())
      ensures forall d | d in uses :: !IsLive(d)
      ensures forall f: FnId :: f in liveFunctions <==> f < |p| && p[f].pinned
    {
      hide State, IsLeastUsed;
      for k := 0 to |order|
        invariant Inv({}) && settled == surveyed
        invariant forall v :: v in surveyed <==> IsValue(p, v) && v.f in order[..k]
        invariant forall f: FnId :: f in liveFunctions <==> f in order[..k] && p[f].pinned
      {
        assert order[..k + 1] == order[..k] + [order[k]];
        assert order[k] !in order[..k];
        SurveyFunction(order[k]);
      }
      assert order[..|order|] == order;
      SurveyIsLeast();
      LeastIsLeastUsed(p, LiveSet());
    }

    lemma SurveyIsLeast()
      requires Inv({}) && forall v | IsValue(p, v) :: v in settled
      ensures IsLeastLive(p, LiveSet())
      ensures forall d | d in uses :: !IsLive(d)
    {
      DrainedIsLeast(p, liveFunctions, liveValues, uses, edges, surveyed, settled);
    }
  }
}
