/** The last check before an argument is promoted: no store may come between the function's entry and
    a load. Blocks found clear for one load are not looked at again for the next. */
module PromotionTransparency {
  import opened Collections
  import opened PrefixSet
  import PromotionSafety
  import PromotionRules

  /** The predecessors of each block. */
  type Cfg = seq<seq<nat>>

  type Load = PromotionSafety.LoadSite

  /** A location is given by the path that leads to it from the argument. */
  type Location = Path

  /** Whether a block may modify a location. */
  type Modifies = (nat, Location) -> bool

  ghost predicate CfgOk(g: Cfg) {
    forall b, i | 0 <= b < |g| && 0 <= i < |g[b]| :: g[b][i] < |g|
  }

  ghost predicate LoadsOk(g: Cfg, loads: seq<Load>) {
    forall i | 0 <= i < |loads| :: loads[i].block < |g|
  }

  // ----- what comes before a block -----

  /** A walk against the edges. */
  ghost predicate IsWalk(g: Cfg, path: seq<nat>) {
    path != [] && (forall i | 0 <= i < |path| :: path[i] < |g|)
    && forall i | 0 < i < |path| :: path[i] in g[path[i - 1]]
  }

  /** Block x may run before b is entered for the last time, or is b. */
  ghost predicate Back(g: Cfg, b: nat, x: nat) {
    exists path :: IsWalk(g, path) && path[0] == b && path[|path| - 1] == x
  }

  /** Block x may run before b is entered. */
  ghost predicate Before(g: Cfg, b: nat, x: nat) {
    b < |g| && exists p :: p in g[b] && Back(g, p, x)
  }

  lemma BackSelf(g: Cfg, b: nat)
    requires b < |g|
    ensures Back(g, b, b)
  {
    assert IsWalk(g, [b]);
  }

  lemma BackStep(g: Cfg, b: nat, x: nat, y: nat)
    requires CfgOk(g) && Back(g, b, x) && x < |g| && y in g[x]
    ensures Back(g, b, y)
  {
    var path :| IsWalk(g, path) && path[0] == b && path[|path| - 1] == x;
    var more := path + [y];
    assert IsWalk(g, more) && more[0] == b && more[|more| - 1] == y;
  }

  ghost predicate PredClosed(g: Cfg, s: set<nat>) {
    forall b, p | b in s && b < |g| && p in g[b] :: p in s
  }

  lemma {:induction false} WalkStaysIn(g: Cfg, path: seq<nat>, s: set<nat>)
    requires IsWalk(g, path) && path[0] in s && PredClosed(g, s)
    ensures path[|path| - 1] in s
    decreases |path|
  {
    if |path| > 1 {
      var short := path[..|path| - 1];
      assert IsWalk(g, short);
      WalkStaysIn(g, short, s);
    }
  }

  // ----- one inverse walk -----

  /** What has been found so far: everything new comes before the start and, but for what is on the
      stack, is clear. */
  ghost predicate Found(g: Cfg, start: nat, old': set<nat>, visited: set<nat>, stack: seq<nat>, mod: Modifies,
                        loc: Location) {
    old' <= visited && start in visited
    && (forall b | b in stack :: b in visited && b !in old')
    && (forall b | b in visited && b !in old' :: b < |g| && Back(g, start, b))
    && (forall b | b in visited && b !in old' && b !in stack :: !mod(b, loc))
  }

  /** All predecessors of what has been found and looked at have been found, those of `b` so far
      only the first n. */
  ghost predicate Expanded(g: Cfg, visited: set<nat>, stack: seq<nat>, b: nat, n: nat)
    requires b < |g| && n <= |g[b]|
  {
    (forall c, p | c in visited && c < |g| && c !in stack && c != b && p in g[c] :: p in visited)
    && (b !in stack ==> forall k | 0 <= k < n :: g[b][k] in visited)
  }

  ghost predicate AllExpanded(g: Cfg, visited: set<nat>, stack: seq<nat>) {
    forall c, p | c in visited && c < |g| && c !in stack && p in g[c] :: p in visited
  }

  lemma WalkStart(g: Cfg, start: nat, old': set<nat>, mod: Modifies, loc: Location)
    requires start < |g| && PredClosed(g, old') && start !in old'
    ensures Found(g, start, old', old' + {start}, [start], mod, loc) && AllExpanded(g, old' + {start}, [start])
  {
    BackSelf(g, start);
  }

  lemma Popped(g: Cfg, start: nat, old': set<nat>, visited: set<nat>, stack: seq<nat>, mod: Modifies, loc: Location)
    requires Found(g, start, old', visited, stack, mod, loc) && AllExpanded(g, visited, stack) && stack != []
    ensures var last := |stack| - 1;
            stack[last] < |g| && stack[last] in visited && stack[last] !in old' && Back(g, start, stack[last])
            && (!mod(stack[last], loc) ==> Found(g, start, old', visited, stack[..last], mod, loc)
                                           && Expanded(g, visited, stack[..last], stack[last], 0))
  {
    var last := |stack| - 1;
    assert stack == stack[..last] + [stack[last]] && stack[last] in stack;
  }

  lemma Pushed(g: Cfg, start: nat, old': set<nat>, visited: set<nat>, stack: seq<nat>, mod: Modifies, loc: Location,
               b: nat, n: nat)
    requires CfgOk(g) && Found(g, start, old', visited, stack, mod, loc)
    requires b in visited && b !in old' && b < |g| && n < |g[b]| && Expanded(g, visited, stack, b, n)
    ensures var p := g[b][n];
            if p in visited then Expanded(g, visited, stack, b, n + 1)
            else
              Found(g, start, old', visited + {p}, stack + [p], mod, loc)
              && Expanded(g, visited + {p}, stack + [p], b, n + 1)
  {
    BackStep(g, start, b, g[b][n]);
  }

  lemma AllPushed(g: Cfg, visited: set<nat>, stack: seq<nat>, b: nat)
    requires b < |g| && Expanded(g, visited, stack, b, |g[b]|)
    ensures AllExpanded(g, visited, stack)
  {
  }

  /** With an empty stack everything that comes before the start has been found. */
  lemma WalkDone(g: Cfg, start: nat, old': set<nat>, visited: set<nat>, mod: Modifies, loc: Location)
    requires Found(g, start, old', visited, [], mod, loc) && AllExpanded(g, visited, [])
    ensures PredClosed(g, visited)
    ensures forall x :: x in visited <==> x in old' || Back(g, start, x)
    ensures forall x | Back(g, start, x) && x !in old' :: !mod(x, loc)
  {
    forall x | Back(g, start, x) ensures x in visited {
      var path :| IsWalk(g, path) && path[0] == start && path[|path| - 1] == x;
      WalkStaysIn(g, path, visited);
    }
  }

  lemma InClosed(g: Cfg, start: nat, old': set<nat>)
    requires PredClosed(g, old') && start in old'
    ensures forall x | Back(g, start, x) :: x in old'
  {
    forall x | Back(g, start, x) ensures x in old' {
      var path :| IsWalk(g, path) && path[0] == start && path[|path| - 1] == x;
      WalkStaysIn(g, path, old');
    }
  }

  function Blocks(g: Cfg): set<nat> { Below(|g|) }

  lemma FindingShrinks(g: Cfg, visited: set<nat>, p: nat)
    requires p < |g| && p !in visited
    ensures |Blocks(g) - (visited + {p})| < |Blocks(g) - visited|
  {
    var rest := Blocks(g) - visited;
    assert Blocks(g) - (visited + {p}) == rest - {p};
    assert p in rest;
  }

  /** Depth first against the edges from one block, past the blocks visited before; stops at a block
      that modifies the location. */
  method InverseWalk(g: Cfg, start: nat, before: set<nat>, mod: Modifies, loc: Location)
    returns (ok: bool, visited: set<nat>)
    requires CfgOk(g) && start < |g| && PredClosed(g, before)
    ensures ok <==> forall x | Back(g, start, x) && x !in before :: !mod(x, loc)
    ensures ok ==> PredClosed(g, visited) && forall x :: x in visited <==> x in before || Back(g, start, x)
  {
    hide Back, Found, Expanded, AllExpanded, PredClosed;
    visited := before;
    if start in before {
      InClosed(g, start, before);
      return true, visited;
    }
    var stack := [start];
    visited := visited + {start};
    WalkStart(g, start, before, mod, loc);
    while stack != []
      invariant Found(g, start, before, visited, stack, mod, loc) && AllExpanded(g, visited, stack)
      decreases |Blocks(g) - visited|, |stack|
    {
      ghost var seen, size := visited, |stack|;
      Popped(g, start, before, visited, stack, mod, loc);
      var b := stack[|stack| - 1];
      if mod(b, loc) {
        return false, visited;
      }
      stack := stack[..|stack| - 1];
      for n := 0 to |g[b]|
        invariant Found(g, start, before, visited, stack, mod, loc) && Expanded(g, visited, stack, b, n)
        invariant b in visited && b !in before
        invariant |Blocks(g) - visited| < |Blocks(g) - seen| || (visited == seen && |stack| < size)
      {
        Pushed(g, start, before, visited, stack, mod, loc, b, n);
        var p := g[b][n];
        if p !in visited {
          FindingShrinks(g, visited, p);
          visited, stack := visited + {p}, stack + [p];
        }
      }
      AllPushed(g, visited, stack, b);
    }
    WalkDone(g, start, before, visited, mod, loc);
    return true, visited;
  }

  // ----- all loads -----

  /** Block x comes before one of the first i loads' blocks. */
  ghost predicate Earlier(g: Cfg, loads: seq<Load>, i: nat, x: nat)
    requires i <= |loads|
  {
    exists j :: 0 <= j < i && Before(g, loads[j].block, x)
  }

  /** What the check finds out about load i: its own block is clear up to it, and so are the blocks
      before it that no earlier load has made it look at. */
  ghost predicate LooksClear(g: Cfg, loads: seq<Load>, mod: Modifies, clobbered: Load -> bool, i: nat)
    requires i < |loads|
  {
    !clobbered(loads[i])
    && forall x | Before(g, loads[i].block, x) && !Earlier(g, loads, i, x) :: !mod(x, loads[i].path)
  }

  /** What it should find out: no store comes between the entry and the load. */
  ghost predicate IsClear(g: Cfg, loads: seq<Load>, mod: Modifies, clobbered: Load -> bool, i: nat)
    requires i < |loads|
  {
    !clobbered(loads[i]) && forall x | Before(g, loads[i].block, x) :: !mod(x, loads[i].path)
  }

  ghost predicate Accepted(g: Cfg, loads: seq<Load>, mod: Modifies, clobbered: Load -> bool) {
    forall i | 0 <= i < |loads| :: LooksClear(g, loads, mod, clobbered, i)
  }

  ghost predicate AllClear(g: Cfg, loads: seq<Load>, mod: Modifies, clobbered: Load -> bool) {
    forall i | 0 <= i < |loads| :: IsClear(g, loads, mod, clobbered, i)
  }

  /** Some walk back from the first n predecessors of b meets x. */
  ghost predicate BeforeBy(g: Cfg, b: nat, n: nat, x: nat)
    requires b < |g| && n <= |g[b]|
  {
    exists k :: 0 <= k < n && Back(g, g[b][k], x)
  }

  lemma BeforeByAll(g: Cfg, b: nat)
    requires b < |g|
    ensures forall x :: BeforeBy(g, b, |g[b]|, x) <==> Before(g, b, x)
  {
  }

  lemma BeforeByMore(g: Cfg, b: nat, n: nat)
    requires b < |g| && n < |g[b]|
    ensures forall x :: BeforeBy(g, b, n + 1, x) <==> BeforeBy(g, b, n, x) || Back(g, g[b][n], x)
  {
  }

  lemma EarlierMore(g: Cfg, loads: seq<Load>, i: nat)
    requires i < |loads|
    ensures forall x :: Earlier(g, loads, i + 1, x) <==> Earlier(g, loads, i, x) || Before(g, loads[i].block, x)
  {
  }

  /** The check over all loads; `clobbered` says whether a load's own block modifies its location
      before it. */
  method CheckLoads(g: Cfg, loads: seq<Load>, mod: Modifies, clobbered: Load -> bool) returns (ok: bool)
    requires CfgOk(g) && LoadsOk(g, loads)
    ensures ok <==> Accepted(g, loads, mod, clobbered)
  {
    hide Back, Before, BeforeBy, PredClosed, Earlier;
    var visited: set<nat> := {};
    assert PredClosed(g, visited) by { NothingClosed(g); }
    assert forall x: nat :: x in visited <==> Earlier(g, loads, 0, x) by { NothingEarlier(g, loads); }
    for i := 0 to |loads|
      invariant PredClosed(g, visited) && forall x: nat :: x in visited <==> Earlier(g, loads, i, x)
      invariant forall j | 0 <= j < i :: LooksClear(g, loads, mod, clobbered, j)
    {
      if clobbered(loads[i]) {
        assert !LooksClear(g, loads, mod, clobbered, i);
        return false;
      }
      var b, loc := loads[i].block, loads[i].path;
      ghost var before := visited;
      NothingBefore(g, b);
      for n := 0 to |g[b]|
        invariant PredClosed(g, visited) && forall x: nat :: x in visited <==> x in before || BeforeBy(g, b, n, x)
        invariant forall x: nat | BeforeBy(g, b, n, x) && x !in before :: !mod(x, loc)
      {
        BeforeByMore(g, b, n);
        ghost var was := visited;
        var clear;
        clear, visited := InverseWalk(g, g[b][n], visited, mod, loc);
        if !clear {
          BeforeByAll(g, b);
          ghost var x :| Back(g, g[b][n], x) && x !in was && mod(x, loc);
          FoundInWay(g, loads, mod, clobbered, i, n, x);
          return false;
        }
      }
      BeforeByAll(g, b);
      EarlierMore(g, loads, i);
    }
    return true;
  }

  lemma NothingClosed(g: Cfg)
    ensures PredClosed(g, {})
  {
  }

  lemma NothingEarlier(g: Cfg, loads: seq<Load>)
    ensures forall x: nat :: !Earlier(g, loads, 0, x)
  {
  }

  lemma NothingBefore(g: Cfg, b: nat)
    requires b < |g|
    ensures forall x: nat :: !BeforeBy(g, b, 0, x)
  {
  }

  lemma FoundInWay(g: Cfg, loads: seq<Load>, mod: Modifies, clobbered: Load -> bool, i: nat, n: nat, x: nat)
    requires i < |loads| && loads[i].block < |g| && n < |g[loads[i].block]| && Back(g, g[loads[i].block][n], x)
    requires !Earlier(g, loads, i, x) && mod(x, loads[i].path)
    ensures !LooksClear(g, loads, mod, clobbered, i)
  {
    assert Before(g, loads[i].block, x);
  }

  /** The whole check: what the argument's uses are, and that nothing comes between the entry and
      their loads. */
  method IsSafeToPromoteArgument(check: PromotionSafety.PromotionCheck, entry: seq<PromotionSafety.EntryLoad>,
                                 uses: seq<PromotionSafety.Use>, g: Cfg, mod: Modifies, clobbered: Load -> bool)
    returns (ok: bool)
    requires check.Knows([]) && check.baseTy == check.byVal
    requires CfgOk(g)
    requires forall spot, s | PromotionSafety.LoadIsAt(uses, spot, s) :: s.block < |g|
    modifies check`baseTy, check.safe
    ensures uses == [] ==> ok
    ensures uses != [] ==>
              (ok <==> PromotionRules.Promotable(check.byVal, entry, uses, check.callersValid, check.maxElements)
                       && exists loads :: PromotionSafety.AllLoads(uses, loads) && Accepted(g, loads, mod, clobbered))
  {
    if uses == [] {
      return true;
    }
    hide Accepted, PromotionRules.Promotable, PromotionSafety.AllLoads, PromotionSafety.Accepted,
         PromotionSafety.LoadIsAt, PromotionSafety.SafePath, PromotionSafety.AlwaysGood;
    var loads;
    ok, loads := check.IsSafeToPromote(entry, uses);
    PromotionRules.AcceptedIff(check.byVal, entry, uses, check.callersValid, check.maxElements);
    UniqueList(g, uses, loads, mod, clobbered, ok);
    if ok && loads != [] {
      ok := CheckLoads(g, loads, mod, clobbered);
    }
  }

  lemma UniqueList(g: Cfg, uses: seq<PromotionSafety.Use>, loads: seq<Load>, mod: Modifies, clobbered: Load -> bool,
                   ok: bool)
    requires forall spot, s | PromotionSafety.LoadIsAt(uses, spot, s) :: s.block < |g|
    requires ok ==> PromotionSafety.AllLoads(uses, loads)
    ensures ok ==> LoadsOk(g, loads) && (loads == [] ==> Accepted(g, loads, mod, clobbered))
    ensures ok ==> forall more | PromotionSafety.AllLoads(uses, more) :: more == loads
  {
    if ok {
      var spots :| PromotionSafety.Lists(uses, loads, spots);
      forall i | 0 <= i < |loads| ensures loads[i].block < |g| {
        assert PromotionSafety.LoadIsAt(uses, spots[i], loads[i]);
      }
      forall more | PromotionSafety.AllLoads(uses, more) ensures more == loads {
        PromotionSafety.AllLoadsIsUnique(uses, more, loads);
      }
    }
  }

  // ----- when acceptance means safety -----

  /** The first load that looks at x is one from the same location as load i. */
  ghost predicate FirstLookShares(g: Cfg, loads: seq<Load>, i: nat, x: nat)
    requires i < |loads|
  {
    exists j :: 0 <= j <= i && Before(g, loads[j].block, x) && !Earlier(g, loads, j, x)
                  && loads[j].path == loads[i].path
  }

  /** Every block before a load was looked at for the load's own location. */
  ghost predicate LooksAtAll(g: Cfg, loads: seq<Load>) {
    forall i, x | 0 <= i < |loads| && Before(g, loads[i].block, x) :: FirstLookShares(g, loads, i, x)
  }

  lemma SharedIsClear(g: Cfg, loads: seq<Load>, mod: Modifies, clobbered: Load -> bool)
    requires LooksAtAll(g, loads) && Accepted(g, loads, mod, clobbered)
    ensures AllClear(g, loads, mod, clobbered)
  {
    forall i, x | 0 <= i < |loads| && Before(g, loads[i].block, x) ensures !mod(x, loads[i].path) {
      assert FirstLookShares(g, loads, i, x);
      var j :| 0 <= j <= i && Before(g, loads[j].block, x) && !Earlier(g, loads, j, x)
               && loads[j].path == loads[i].path;
      assert LooksClear(g, loads, mod, clobbered, j);
    }
    forall i | 0 <= i < |loads| ensures IsClear(g, loads, mod, clobbered, i) {
      assert LooksClear(g, loads, mod, clobbered, i);
    }
  }

  lemma {:induction false} FirstLook(g: Cfg, loads: seq<Load>, i: nat, x: nat) returns (j: nat)
    requires i < |loads| && Before(g, loads[i].block, x)
    ensures j <= i && Before(g, loads[j].block, x) && !Earlier(g, loads, j, x)
    decreases i
  {
    if Earlier(g, loads, i, x) {
      var k :| 0 <= k < i && Before(g, loads[k].block, x);
      j := FirstLook(g, loads, k, x);
    } else {
      j := i;
    }
  }

  lemma FirstLookIsUnique(g: Cfg, loads: seq<Load>, j: nat, k: nat, x: nat)
    requires j < |loads| && k < |loads| && Before(g, loads[j].block, x) && Before(g, loads[k].block, x)
    requires !Earlier(g, loads, j, x) && !Earlier(g, loads, k, x)
    ensures j == k
  {
  }

  /** No load has a store before it in its own block. */
  const CLEAN: Load -> bool := s => false

  /** A single store that goes unseen. */
  lemma OneStoreIsMissed(g: Cfg, loads: seq<Load>, i: nat, x: nat)
    requires i < |loads| && Before(g, loads[i].block, x) && !FirstLookShares(g, loads, i, x)
    ensures var mod: Modifies := (b, l) => b == x && l == loads[i].path;
            Accepted(g, loads, mod, CLEAN) && !AllClear(g, loads, mod, CLEAN)
  {
    var mod: Modifies := (b, l) => b == x && l == loads[i].path;
    forall k | 0 <= k < |loads| ensures LooksClear(g, loads, mod, CLEAN, k) {
      if Before(g, loads[k].block, x) && !Earlier(g, loads, k, x) {
        var j := FirstLook(g, loads, i, x);
        FirstLookIsUnique(g, loads, j, k, x);
      }
    }
    assert mod(x, loads[i].path);
    assert !IsClear(g, loads, mod, CLEAN, i);
  }

  /** Acceptance rules out every store before a load, whatever the blocks do, exactly when every block
      is first looked at for a load from the same location as each load it precedes. */
  lemma AcceptanceIsSafeIff(g: Cfg, loads: seq<Load>)
    ensures (forall mod: Modifies, clobbered: Load -> bool | Accepted(g, loads, mod, clobbered) ::
             AllClear(g, loads, mod, clobbered))
       <==> LooksAtAll(g, loads)
  {
    hide Accepted, AllClear, FirstLookShares, Before;
    if LooksAtAll(g, loads) {
      forall mod: Modifies, clobbered: Load -> bool | Accepted(g, loads, mod, clobbered)
        ensures AllClear(g, loads, mod, clobbered)
      {
        SharedIsClear(g, loads, mod, clobbered);
      }
    } else {
      var i, x :| 0 <= i < |loads| && Before(g, loads[i].block, x) && !FirstLookShares(g, loads, i, x);
      OneStoreIsMissed(g, loads, i, x);
    }
  }

  /** Loads from one location only are always checked in full. */
  lemma OneLocationIsSafe(g: Cfg, loads: seq<Load>)
    requires forall i, j | 0 <= i < |loads| && 0 <= j < |loads| :: loads[i].path == loads[j].path
    ensures LooksAtAll(g, loads)
  {
    forall i, x | 0 <= i < |loads| && Before(g, loads[i].block, x) ensures FirstLookShares(g, loads, i, x) {
      var j := FirstLook(g, loads, i, x);
    }
  }

  /** Two loads in the block after the entry, from different locations: a store in the entry block to
      the second one's is not noticed. */
  lemma {:induction false} SecondLocationMissed()
    ensures var g: Cfg := [[], [0]];
            var loads := [PromotionSafety.LoadSite(1, 0, [0, 0]), PromotionSafety.LoadSite(1, 1, [0, 1])];
            var mod: Modifies := (b, l) => b == 0 && l == [0, 1];
            CfgOk(g) && LoadsOk(g, loads) && Accepted(g, loads, mod, CLEAN) && !AllClear(g, loads, mod, CLEAN)
  {
    var g: Cfg := [[], [0]];
    var loads := [PromotionSafety.LoadSite(1, 0, [0, 0]), PromotionSafety.LoadSite(1, 1, [0, 1])];
    hide Back, IsWalk;
    BackSelf(g, 0);
    assert 0 in g[1];
    assert Before(g, loads[0].block, 0) && Before(g, loads[1].block, 0);
    assert Earlier(g, loads, 1, 0);
    assert !FirstLookShares(g, loads, 1, 0);
    OneStoreIsMissed(g, loads, 1, 0);
    var mod: Modifies := (b, l) => b == 0 && l == [0, 1];
    var missed: Modifies := (b, l) => b == 0 && l == loads[1].path;
    forall b, l ensures mod(b, l) == missed(b, l) { }
    forall k | 0 <= k < |loads| ensures LooksClear(g, loads, mod, CLEAN, k) {
      assert LooksClear(g, loads, missed, CLEAN, k);
    }
    assert !IsClear(g, loads, mod, CLEAN, 1);
  }
}
