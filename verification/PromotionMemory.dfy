/** Executions of the callee: its blocks change memory as they run, and what a promoted load yields has
    to be what the caller loaded before the call. */
module PromotionMemory {
  import opened Collections
  import opened PromotionTransparency
  import PromotionSafety
  import PromotionRules
  import PromotionRewrite

  type Memory = PromotionRewrite.Memory
  type Pointer = PromotionRewrite.Pointer

  /** A run up to a load: the blocks entered, memory on entering each, and memory at the load. */
  datatype Run = Run(blocks: seq<nat>, before: seq<Memory>, here: Memory) {
    ghost predicate Follows(g: Cfg) {
      blocks != [] && |before| == |blocks| && (forall k | 0 <= k < |blocks| :: blocks[k] < |g|)
      && forall k | 0 < k < |blocks| :: blocks[k - 1] in g[blocks[k]]
    }
  }

  ghost predicate Unchanged(mod: Modifies, b: nat, ptr: Pointer, m: Memory, m': Memory) {
    forall l: Location :: mod(b, l) || m'(ptr, l) == m(ptr, l)
  }

  /** The run gets to load s, and its blocks change no location that they are said not to modify. */
  ghost predicate Reaches(g: Cfg, s: Load, mod: Modifies, clobbered: Load -> bool, ptr: Pointer, r: Run) {
    r.Follows(g) && r.blocks[|r.blocks| - 1] == s.block
    && (forall k | 0 < k < |r.blocks| :: Unchanged(mod, r.blocks[k - 1], ptr, r.before[k - 1], r.before[k]))
    && (clobbered(s) || r.here(ptr, s.path) == r.before[|r.blocks| - 1](ptr, s.path))
  }

  /** The load yields what its location held when the function was entered. */
  predicate YieldsEntry(s: Load, ptr: Pointer, r: Run)
    requires r.before != []
  {
    r.here(ptr, s.path) == r.before[0](ptr, s.path)
  }

  ghost predicate AllYieldEntry(g: Cfg, loads: seq<Load>, mod: Modifies, clobbered: Load -> bool) {
    forall ptr: Pointer, s: Load, r: Run | s in loads && Reaches(g, s, mod, clobbered, ptr, r) ::
      YieldsEntry(s, ptr, r)
  }

  // ----- nothing in the way: nothing changes -----

  lemma {:induction false} EarlierIsBefore(g: Cfg, r: Run, k: nat)
    requires CfgOk(g) && r.Follows(g) && k < |r.blocks| - 1
    ensures Before(g, r.blocks[|r.blocks| - 1], r.blocks[k])
    ensures Back(g, r.blocks[|r.blocks| - 2], r.blocks[k])
    decreases |r.blocks| - k
  {
    var last := |r.blocks| - 1;
    hide Back;
    if k == last - 1 {
      BackSelf(g, r.blocks[k]);
    } else {
      EarlierIsBefore(g, r, k + 1);
      BackStep(g, r.blocks[last - 1], r.blocks[k + 1], r.blocks[k]);
    }
    assert r.blocks[last - 1] in g[r.blocks[last]];
  }

  lemma {:induction false} StillEntry(g: Cfg, loads: seq<Load>, mod: Modifies, clobbered: Load -> bool, ptr: Pointer,
                                      i: nat, r: Run, k: nat)
    requires CfgOk(g) && i < |loads| && Reaches(g, loads[i], mod, clobbered, ptr, r) && k < |r.blocks|
    requires IsClear(g, loads, mod, clobbered, i)
    ensures r.before[k](ptr, loads[i].path) == r.before[0](ptr, loads[i].path)
  {
    hide Before;
    if k > 0 {
      StillEntry(g, loads, mod, clobbered, ptr, i, r, k - 1);
      EarlierIsBefore(g, r, k - 1);
      assert Unchanged(mod, r.blocks[k - 1], ptr, r.before[k - 1], r.before[k]);
    }
  }

  // ----- something in the way: a run in which it changes -----

  const BLANK: Memory := (p, l) => 0

  function Marked(ptr: Pointer, loc: Location): Memory {
    (p, l) => if p == ptr && l == loc then 1 else 0
  }

  function Repeated(m: Memory, n: nat): (ms: seq<Memory>)
    ensures |ms| == n && forall k | 0 <= k < n :: ms[k] == m
  {
    if n == 0 then [] else Repeated(m, n - 1) + [m]
  }

  /** The walk back taken forwards, the first block changing the location. */
  function Disturbed(path: seq<nat>, b: nat, ptr: Pointer, loc: Location): Run {
    var n := |path|;
    Run(seq(n, k requires 0 <= k < n => path[n - 1 - k]) + [b],
        [BLANK] + Repeated(Marked(ptr, loc), n), Marked(ptr, loc))
  }

  lemma DisturbedReaches(g: Cfg, s: Load, mod: Modifies, clobbered: Load -> bool, ptr: Pointer, path: seq<nat>)
    requires s.block < |g| && IsWalk(g, path) && path[0] in g[s.block]
    requires mod(path[|path| - 1], s.path)
    ensures var r := Disturbed(path, s.block, ptr, s.path);
            Reaches(g, s, mod, clobbered, ptr, r) && !YieldsEntry(s, ptr, r)
  {
    var n, r := |path|, Disturbed(path, s.block, ptr, s.path);
    forall k | 0 < k < |r.blocks| ensures r.blocks[k - 1] in g[r.blocks[k]] {
      if k < n { assert path[n - 1 - k + 1] in g[path[n - 1 - k]]; }
    }
    forall k | 0 < k < |r.blocks| ensures Unchanged(mod, r.blocks[k - 1], ptr, r.before[k - 1], r.before[k]) {
      forall l: Location ensures mod(r.blocks[k - 1], l) || r.before[k](ptr, l) == r.before[k - 1](ptr, l) { }
    }
  }

  lemma ClobberedReaches(g: Cfg, s: Load, mod: Modifies, clobbered: Load -> bool, ptr: Pointer)
    requires s.block < |g| && clobbered(s)
    ensures var r := Run([s.block], [BLANK], Marked(ptr, s.path));
            Reaches(g, s, mod, clobbered, ptr, r) && !YieldsEntry(s, ptr, r)
  {
  }

  /** No store comes before any load exactly if in every run every load yields what its location held
      when the function was entered. */
  lemma ClearIff(g: Cfg, loads: seq<Load>, mod: Modifies, clobbered: Load -> bool)
    requires CfgOk(g) && LoadsOk(g, loads)
    ensures AllClear(g, loads, mod, clobbered) <==> AllYieldEntry(g, loads, mod, clobbered)
  {
    hide Reaches, YieldsEntry, Before, IsWalk;
    if AllClear(g, loads, mod, clobbered) {
      forall ptr: Pointer, s: Load, r: Run | s in loads && Reaches(g, s, mod, clobbered, ptr, r)
        ensures r.before != [] && YieldsEntry(s, ptr, r)
      {
        var i :| 0 <= i < |loads| && loads[i] == s;
        ClearYields(g, loads, mod, clobbered, ptr, i, r);
      }
    } else {
      var i: nat :| i < |loads| && !IsClear(g, loads, mod, clobbered, i);
      var s := loads[i];
      if clobbered(s) {
        ClobberedReaches(g, s, mod, clobbered, 0);
      } else {
        var x :| Before(g, s.block, x) && mod(x, s.path);
        var path := WalkTo(g, s.block, x);
        DisturbedReaches(g, s, mod, clobbered, 0, path);
      }
    }
  }

  lemma WalkTo(g: Cfg, b: nat, x: nat) returns (path: seq<nat>)
    requires Before(g, b, x)
    ensures b < |g| && IsWalk(g, path) && path[0] in g[b] && path[|path| - 1] == x
  {
    var p :| p in g[b] && Back(g, p, x);
    path :| IsWalk(g, path) && path[0] == p && path[|path| - 1] == x;
  }

  lemma ClearYields(g: Cfg, loads: seq<Load>, mod: Modifies, clobbered: Load -> bool, ptr: Pointer, i: nat, r: Run)
    requires CfgOk(g) && i < |loads| && Reaches(g, loads[i], mod, clobbered, ptr, r)
    requires IsClear(g, loads, mod, clobbered, i)
    ensures r.before != [] && YieldsEntry(loads[i], ptr, r)
  {
    hide Before;
    StillEntry(g, loads, mod, clobbered, ptr, i, r, |r.blocks| - 1);
  }

  /** Whatever the blocks do, the loads of an accepted argument yield what the caller would have loaded,
      exactly if every block is first looked at for the location of each load it precedes. */
  lemma AcceptedYieldIff(g: Cfg, loads: seq<Load>)
    requires CfgOk(g) && LoadsOk(g, loads)
    ensures (forall mod: Modifies, clobbered: Load -> bool | Accepted(g, loads, mod, clobbered) ::
             AllYieldEntry(g, loads, mod, clobbered))
       <==> LooksAtAll(g, loads)
  {
    hide Accepted, AllClear, AllYieldEntry, LooksAtAll;
    AcceptanceIsSafeIff(g, loads);
    forall mod: Modifies, clobbered: Load -> bool
      ensures AllClear(g, loads, mod, clobbered) <==> AllYieldEntry(g, loads, mod, clobbered)
    {
      ClearIff(g, loads, mod, clobbered);
    }
  }

  // ----- the promoted argument -----

  /** A use with a load is live, and leads to what the load loads. */
  lemma SpotPath(uses: seq<PromotionSafety.Use>, spot: PromotionSafety.Spot, s: Load)
    requires PromotionSafety.LoadIsAt(uses, spot, s)
    requires PromotionSafety.Skipped(uses[spot.use]) || PromotionSafety.UseOk(uses[spot.use])
    ensures var u := PromotionRewrite.AsPromoted(uses[spot.use]);
            !PromotionRewrite.IsDead(u) && s.path == PromotionRewrite.UsePath(u)
  {
  }

  /** The check lets the uses pass, and no load of theirs. */
  ghost predicate Passes(byVal: Option<PromotionRewrite.Ty>, entry: seq<PromotionSafety.EntryLoad>,
                         checked: seq<PromotionSafety.Use>, callersValid: PromotionRewrite.Ty -> bool, max: nat, g: Cfg,
                         loads: seq<Load>, mod: Modifies, clobbered: Load -> bool)
  {
    PromotionRules.Promotable(byVal, entry, checked, callersValid, max)
    && PromotionSafety.AllLoads(checked, loads) && LoadsOk(g, loads) && Accepted(g, loads, mod, clobbered)
  }

  ghost predicate IsPromoted(args: seq<PromotionRewrite.Arg>, a: nat, checked: seq<PromotionSafety.Use>) {
    a < |args| && PromotionRewrite.LetPass(checked)
    && args[a] == PromotionRewrite.Promoted(PromotionRewrite.PromotedUses(checked))
  }

  /** Every live use of argument a has been rewired. */
  ghost predicate Rewired(args: seq<PromotionRewrite.Arg>, a: nat, wires: seq<PromotionRewrite.Wire>)
    requires a < |args|
  {
    args[a].Promoted?
    && forall u | u in args[a].uses && !PromotionRewrite.IsDead(u) :: exists w :: w in wires && w.arg == a && w.use == u
  }

  /** The whole promotion of one argument: each load that stands at some use of it, directly or behind a
      GEP, has been rewired to a parameter, and in any run of the callee that gets to the load the caller
      has passed there, having loaded it before the call, what the load yields. */
  lemma {:induction false} PromotedLoadsAgree(
      byVal: Option<PromotionRewrite.Ty>, entry: seq<PromotionSafety.EntryLoad>, checked: seq<PromotionSafety.Use>,
      callersValid: PromotionRewrite.Ty -> bool, max: nat, g: Cfg, loads: seq<Load>, mod: Modifies,
      clobbered: Load -> bool, args: seq<PromotionRewrite.Arg>, a: nat, tables: seq<seq<PromotionRewrite.Key>>,
      actuals: seq<Pointer>, ops: seq<PromotionRewrite.Operand>, wires: seq<PromotionRewrite.Wire>,
      spot: PromotionSafety.Spot, s: Load, r: Run)
    returns (w: PromotionRewrite.Wire)
    requires Passes(byVal, entry, checked, callersValid, max, g, loads, mod, clobbered)
    requires CfgOk(g) && LooksAtAll(g, loads)
    requires IsPromoted(args, a, checked) && Rewired(args, a, wires)
    requires PromotionRewrite.TablesOk(args, tables, |args|) && |actuals| >= |args|
    requires var params := PromotionRewrite.AllParams(args, tables, |args|);
             |ops| >= |params| && PromotionRewrite.Matches(ops[..|params|], params, actuals)
             && forall w | w in wires :: PromotionRewrite.WiredOk(args, params, w)
    requires PromotionSafety.LoadIsAt(checked, spot, s)
    requires Reaches(g, s, mod, clobbered, actuals[a], r)
    ensures w in wires && w.arg == a && w.use == PromotionRewrite.AsPromoted(checked[spot.use])
    ensures w.index < |ops| && r.before != []
    ensures PromotionRewrite.Passed(ops[w.index], r.before[0]) == r.here(actuals[a], s.path)
  {
    hide Accepted, AllClear, LooksAtAll, Reaches, PromotionRewrite.Matches, PromotionRewrite.AllParams,
         PromotionRewrite.TablesOk, PromotionSafety.LoadIsAt, PromotionSafety.Accepted;
    SpotIsUse(checked, spot, s);
    SpotPath(checked, spot, s);
    var u := PromotionRewrite.AsPromoted(checked[spot.use]);
    assert PromotionRewrite.PromotedUses(checked)[spot.use] == u;
    w :| w in wires && w.arg == a && w.use == u;
    SharedIsClear(g, loads, mod, clobbered);
    ClearIff(g, loads, mod, clobbered);
    var spots :| PromotionSafety.Lists(checked, loads, spots);
    var i := PromotionSafety.ListsAt(checked, loads, spots, spot, s);
    assert r.before != [] by { ReachesSomething(g, s, mod, clobbered, actuals[a], r); }
    assert YieldsEntry(s, actuals[a], r);
    PromotionRewrite.WalksAgree(args, tables, actuals, ops, w, r.before[0]);
  }

  lemma SpotIsUse(uses: seq<PromotionSafety.Use>, spot: PromotionSafety.Spot, s: Load)
    requires PromotionSafety.LoadIsAt(uses, spot, s)
    ensures spot.use < |uses|
  {
  }

  lemma ReachesSomething(g: Cfg, s: Load, mod: Modifies, clobbered: Load -> bool, ptr: Pointer, r: Run)
    requires Reaches(g, s, mod, clobbered, ptr, r)
    ensures r.before != []
  {
  }
}
