/** Which definitions reach which blocks across a suspend point: the bit-vector fixpoint that
    decides what a coroutine must keep in its frame. */
module SuspendCrossing {
  import opened Collections

  /** A control-flow graph on blocks 0..|succ|, with its suspend (or save) and coro.end blocks. */
  datatype Cfg = Cfg(succ: seq<seq<nat>>, suspend: seq<bool>, end: seq<bool>) {
    ghost predicate Ok() {
      |suspend| == |end| == |succ| && forall b, s | 0 <= b < |succ| && s in succ[b] :: s < |succ|
    }
  }

  // ----- what the bits should mean -----

  ghost predicate IsPath(g: Cfg, path: seq<nat>) {
    path != [] && (forall i | 0 <= i < |path| :: path[i] < |g.succ|)
    && forall i | 0 < i < |path| :: path[i] in g.succ[path[i - 1]]
  }

  ghost predicate PathFrom(g: Cfg, path: seq<nat>, d: nat, u: nat) {
    IsPath(g, path) && path[0] == d && path[|path| - 1] == u
  }

  ghost predicate Reaches(g: Cfg, d: nat, u: nat) {
    exists path :: PathFrom(g, path, d, u)
  }

  /** Passing through block b, a value defined in d stays behind a suspend it has crossed: b is no
      plain coro.end and does not define d anew. */
  predicate Passes(g: Cfg, d: nat, b: nat)
    requires g.Ok() && b < |g.succ|
  {
    g.suspend[b] || (!g.end[b] && b != d)
  }

  /** The path meets a suspend block at position j and passes every block after it. */
  ghost predicate CrossesAt(g: Cfg, path: seq<nat>, d: nat, j: nat)
    requires g.Ok() && IsPath(g, path)
  {
    j < |path| && g.suspend[path[j]] && forall k | j < k < |path| :: Passes(g, d, path[k])
  }

  ghost predicate Crosses(g: Cfg, d: nat, u: nat)
    requires g.Ok()
  {
    exists path, j :: PathFrom(g, path, d, u) && CrossesAt(g, path, d, j)
  }

  // ----- one edge of the dataflow -----

  type Bits = seq<set<nat>>

  function NewConsumes(c: Bits, b: nat, s: nat): set<nat>
    requires b < |c| && s < |c|
  {
    c[s] + c[b]
  }

  function NewKills(g: Cfg, c: Bits, k: Bits, b: nat, s: nat): set<nat>
    requires g.Ok() && |c| == |k| == |g.succ| && b < |c| && s < |c|
  {
    var in' := k[s] + k[b] + if g.suspend[b] then c[b] else {};
    if g.suspend[s] then in' + NewConsumes(c, b, s)
    else if g.end[s] then {}
    else in' - {s}
  }

  /** What holds of the bit vectors between any two steps. */
  ghost predicate Inv(g: Cfg, c: Bits, k: Bits) {
    g.Ok() && |c| == |k| == |g.succ|
    && forall i | 0 <= i < |c| ::
         i in c[i] && Shaped(g, c[i], k[i], i)
         && (forall d | d in c[i] :: Reaches(g, d, i)) && (forall d | d in k[i] :: Crosses(g, d, i))
  }

  /** A suspend block kills all it consumes; a plain coro.end kills nothing; no other block kills itself. */
  predicate Shaped(g: Cfg, c: set<nat>, k: set<nat>, i: nat)
    requires g.Ok() && i < |g.succ|
  {
    if g.suspend[i] then c <= k else if g.end[i] then k == {} else i !in k
  }

  lemma ReachesStep(g: Cfg, d: nat, b: nat, s: nat)
    requires g.Ok() && b < |g.succ| && s in g.succ[b] && Reaches(g, d, b)
    ensures Reaches(g, d, s)
  {
    var path :| PathFrom(g, path, d, b);
    assert PathFrom(g, path + [s], d, s);
  }

  lemma CrossesStep(g: Cfg, d: nat, b: nat, s: nat)
    requires g.Ok() && b < |g.succ| && s in g.succ[b] && Crosses(g, d, b) && Passes(g, d, s)
    ensures Crosses(g, d, s)
  {
    var path, j :| PathFrom(g, path, d, b) && CrossesAt(g, path, d, j);
    var path' := path + [s];
    assert PathFrom(g, path', d, s);
    assert CrossesAt(g, path', d, j);
  }

  lemma SuspendCrosses(g: Cfg, d: nat, b: nat)
    requires g.Ok() && b < |g.succ| && g.suspend[b] && Reaches(g, d, b)
    ensures Crosses(g, d, b)
  {
    var path :| PathFrom(g, path, d, b);
    assert CrossesAt(g, path, d, |path| - 1);
  }

  /** Although the transfer function clears bits, it never takes one away from its target. */
  lemma EdgeGrows(g: Cfg, c: Bits, k: Bits, b: nat, s: nat)
    requires Inv(g, c, k) && b < |c| && s < |c|
    ensures c[s] <= NewConsumes(c, b, s) && k[s] <= NewKills(g, c, k, b, s)
  {
    assert Shaped(g, c[s], k[s], s);
  }

  lemma EdgeKeepsInv(g: Cfg, c: Bits, k: Bits, b: nat, s: nat)
    requires Inv(g, c, k) && b < |c| && s in g.succ[b]
    ensures s < |c| && Inv(g, c[s := NewConsumes(c, b, s)], k[s := NewKills(g, c, k, b, s)])
  {
    hide Reaches, Crosses;
    var c', k' := NewConsumes(c, b, s), NewKills(g, c, k, b, s);
    assert Shaped(g, c[s], k[s], s);
    forall d | d in c' ensures Reaches(g, d, s) {
      if d in c[b] { ReachesStep(g, d, b, s); }
    }
    forall d | d in k' ensures Crosses(g, d, s) {
      if d !in k[s] {
        if g.suspend[s] && d in c' {
          SuspendCrosses(g, d, s);
        } else {
          if d !in k[b] { SuspendCrosses(g, d, b); }
          CrossesStep(g, d, b, s);
        }
      }
    }
  }

  ghost predicate EdgeStable(g: Cfg, c: Bits, k: Bits, b: nat, s: nat)
    requires g.Ok() && |c| == |k| == |g.succ|
  {
    b < |c| && s < |c| && NewConsumes(c, b, s) == c[s] && NewKills(g, c, k, b, s) == k[s]
  }

  ghost predicate Stable(g: Cfg, c: Bits, k: Bits)
    requires g.Ok() && |c| == |k| == |g.succ|
  {
    forall b, s | 0 <= b < |c| && s in g.succ[b] :: EdgeStable(g, c, k, b, s)
  }

  // ----- a fixpoint is exact -----

  lemma {:induction false} PathConsumed(g: Cfg, c: Bits, k: Bits, path: seq<nat>, i: nat)
    requires Inv(g, c, k) && Stable(g, c, k) && IsPath(g, path) && i < |path|
    ensures path[0] in c[path[i]]
    decreases i
  {
    hide Reaches, Crosses;
    if i > 0 {
      PathConsumed(g, c, k, path, i - 1);
      assert EdgeStable(g, c, k, path[i - 1], path[i]);
    }
  }

  lemma {:induction false} PathKilled(g: Cfg, c: Bits, k: Bits, path: seq<nat>, j: nat, i: nat)
    requires Inv(g, c, k) && Stable(g, c, k) && IsPath(g, path) && CrossesAt(g, path, path[0], j)
    requires j <= i < |path|
    ensures path[0] in k[path[i]]
    decreases i
  {
    hide Reaches, Crosses;
    PathConsumed(g, c, k, path, i);
    assert Shaped(g, c[path[i]], k[path[i]], path[i]);
    if i > j {
      PathKilled(g, c, k, path, j, i - 1);
      assert EdgeStable(g, c, k, path[i - 1], path[i]);
      assert Passes(g, path[0], path[i]);
    }
  }

  ghost predicate Exact(g: Cfg, c: Bits, k: Bits)
    requires g.Ok()
  {
    |c| == |k| == |g.succ|
    && forall u, d | 0 <= u < |c| :: (d in c[u] <==> Reaches(g, d, u)) && (d in k[u] <==> Crosses(g, d, u))
  }

  /** At a fixpoint the bits say exactly which blocks reach which, and which do so across a suspend. */
  lemma StableIsExact(g: Cfg, c: Bits, k: Bits)
    requires Inv(g, c, k) && Stable(g, c, k)
    ensures Exact(g, c, k)
  {
    forall u, d | 0 <= u < |c|
      ensures (d in c[u] <==> Reaches(g, d, u)) && (d in k[u] <==> Crosses(g, d, u))
    {
      if Reaches(g, d, u) {
        var path :| PathFrom(g, path, d, u);
        PathConsumed(g, c, k, path, |path| - 1);
      }
      if Crosses(g, d, u) {
        var path, j :| PathFrom(g, path, d, u) && CrossesAt(g, path, d, j);
        PathKilled(g, c, k, path, j, |path| - 1);
      }
    }
  }

  // ----- termination -----

  /** The bits not set yet, as (block, bit) pairs. */
  ghost function Missing(b: Bits): set<(nat, nat)> {
    set i, d | 0 <= i < |b| && 0 <= d < |b| && d !in b[i] :: (i, d)
  }

  predicate AllBelow(b: Bits) {
    forall i | 0 <= i < |b| :: forall d | d in b[i] :: d < |b|
  }

  lemma GrowthShrinksMissing(b: Bits, s: nat, more: set<nat>)
    requires s < |b| && b[s] <= more && AllBelow(b[s := more])
    ensures Missing(b[s := more]) <= Missing(b)
    ensures more != b[s] ==> Missing(b[s := more]) < Missing(b)
  {
    var b' := b[s := more];
    if more != b[s] {
      var d :| d in more && d !in b[s];
      assert d in b'[s];
      assert (s, d) in Missing(b) && (s, d) !in Missing(b');
    }
  }

  lemma InvBelow(g: Cfg, c: Bits, k: Bits)
    requires Inv(g, c, k)
    ensures AllBelow(c) && AllBelow(k)
  {
    forall i, d | 0 <= i < |c| && d in c[i] ensures d < |c| {
      var path :| PathFrom(g, path, d, i);
    }
    forall i, d | 0 <= i < |k| && d in k[i] ensures d < |k| {
      var path, j :| PathFrom(g, path, d, i) && CrossesAt(g, path, d, j);
    }
  }

  lemma EdgeProgress(g: Cfg, c: Bits, k: Bits, b: nat, s: nat)
    requires Inv(g, c, k) && b < |c| && s in g.succ[b]
    ensures s < |c|
    ensures var c', k' := c[s := NewConsumes(c, b, s)], k[s := NewKills(g, c, k, b, s)];
            Missing(c') <= Missing(c) && Missing(k') <= Missing(k)
            && (c' != c ==> Missing(c') < Missing(c)) && (k' != k ==> Missing(k') < Missing(k))
            && (c' == c && k' == k ==> EdgeStable(g, c, k, b, s))
  {
    hide Missing, Reaches, Crosses;
    EdgeKeepsInv(g, c, k, b, s);
    InvBelow(g, c[s := NewConsumes(c, b, s)], k[s := NewKills(g, c, k, b, s)]);
    EdgeGrows(g, c, k, b, s);
    GrowthShrinksMissing(c, s, NewConsumes(c, b, s));
    GrowthShrinksMissing(k, s, NewKills(g, c, k, b, s));
    assert c[s := c[s]] == c && k[s := k[s]] == k;
  }

  // ----- the analysis -----

  /** A coro.suspend's block, and that of its coro.save if it has one. */
  datatype SuspendPoint = SuspendPoint(block: nat, save: Option<nat>)

  predicate IsBarrier(suspends: seq<SuspendPoint>, b: nat) {
    exists p | p in suspends :: p.block == b || p.save == Some(b)
  }

  lemma StartInv(g: Cfg, c: Bits, k: Bits)
    requires g.Ok() && |c| == |k| == |g.succ|
    requires forall i | 0 <= i < |c| :: c[i] == {i} && k[i] == if g.suspend[i] then {i} else {}
    ensures Inv(g, c, k)
  {
    forall i | 0 <= i < |c| ensures Reaches(g, i, i) && (g.suspend[i] ==> Crosses(g, i, i)) {
      assert PathFrom(g, [i], i, i);
      if g.suspend[i] { SuspendCrosses(g, i, i); }
    }
  }

  class SuspendCrossingInfo {
    const succ: seq<seq<nat>>
    const consumes: array<set<nat>>
    const kills: array<set<nat>>
    const suspend: array<bool>
    const end: array<bool>

    ghost function Graph(): Cfg
      reads suspend, end
    {
      Cfg(succ, suspend[..], end[..])
    }

    ghost predicate Separate() {
      suspend != end && consumes != kills && suspend.Length == end.Length == consumes.Length == kills.Length == |succ|
    }

    constructor (succ: seq<seq<nat>>, coroEnds: seq<nat>, suspends: seq<SuspendPoint>)
      requires forall b, s | 0 <= b < |succ| && s in succ[b] :: s < |succ|
      requires forall b | b in coroEnds :: b < |succ|
      requires forall p | p in suspends :: p.block < |succ| && (p.save.Some? ==> p.save.value < |succ|)
      ensures fresh(consumes) && fresh(kills) && fresh(suspend) && fresh(end)
      ensures Separate() && this.succ == succ
      ensures forall b | 0 <= b < |succ| :: (end[b] <==> b in coroEnds)
      ensures forall b | 0 <= b < |succ| ::
                suspend[b] <==> exists p :: p in suspends && (p.block == b || p.save == Some(b))
      ensures Graph().Ok() && Exact(Graph(), consumes[..], kills[..])
    {
      this.succ := succ;
      consumes := new set<nat>[|succ|](i => {});
      kills := new set<nat>[|succ|](i => {});
      suspend := new bool[|succ|](i => false);
      end := new bool[|succ|](i => false);
      new;
      for i := 0 to |succ|
        invariant forall x | 0 <= x < |succ| :: consumes[x] == if x < i then {x} else {}
        invariant forall x | 0 <= x < |succ| :: kills[x] == {} && !suspend[x] && !end[x]
      {
        consumes[i] := consumes[i] + {i};
      }
      MarkEnds(coroEnds);
      MarkSuspends(suspends);
      StartInv(Graph(), consumes[..], kills[..]);
      Iterate();
    }

    method MarkEnds(coroEnds: seq<nat>)
      requires Separate() && forall b | b in coroEnds :: b < |succ|
      requires forall x | 0 <= x < |succ| :: !end[x]
      modifies end
      ensures forall x | 0 <= x < |succ| :: end[x] <==> x in coroEnds
    {
      for i := 0 to |coroEnds|
        invariant forall x | 0 <= x < |succ| :: end[x] <==> x in coroEnds[..i]
      {
        assert coroEnds[i] in coroEnds;
        assert coroEnds[..i + 1] == coroEnds[..i] + [coroEnds[i]];
        end[coroEnds[i]] := true;
      }
      assert coroEnds[..|coroEnds|] == coroEnds;
    }

    method MarkSuspendBlock(b: nat)
      requires Separate() && b < |succ|
      modifies suspend, kills
      ensures suspend[..] == old(suspend[..])[b := true]
      ensures kills[..] == old(kills[..])[b := old(kills[b]) + consumes[b]]
    {
      suspend[b] := true;
      kills[b] := kills[b] + consumes[b];
    }

    method MarkSuspends(suspends: seq<SuspendPoint>)
      requires Separate()
      requires forall p | p in suspends :: p.block < |succ| && (p.save.Some? ==> p.save.value < |succ|)
      requires forall x | 0 <= x < |succ| :: consumes[x] == {x} && kills[x] == {} && !suspend[x]
      modifies suspend, kills
      ensures forall x | 0 <= x < |succ| :: suspend[x] <==> IsBarrier(suspends, x)
      ensures forall x | 0 <= x < |succ| :: kills[x] == if suspend[x] then {x} else {}
    {
      for i := 0 to |suspends|
        invariant forall x | 0 <= x < |succ| :: suspend[x] <==> IsBarrier(suspends[..i], x)
        invariant forall x | 0 <= x < |succ| :: kills[x] == if suspend[x] then {x} else {}
      {
        var p := suspends[i];
        assert p in suspends;
        assert suspends[..i + 1] == suspends[..i] + [p];
        forall x
          ensures IsBarrier(suspends[..i + 1], x) <==> IsBarrier(suspends[..i], x) || p.block == x || p.save == Some(x)
        {
          BarrierMore(suspends[..i], p, x);
        }
        MarkSuspendBlock(p.block);
        if p.save.Some? {
          MarkSuspendBlock(p.save.value);
        }
      }
      assert suspends[..|suspends|] == suspends;
    }

    lemma BarrierMore(ps: seq<SuspendPoint>, p: SuspendPoint, x: nat)
      ensures IsBarrier(ps + [p], x) <==> IsBarrier(ps, x) || p.block == x || p.save == Some(x)
    {
      assert p in ps + [p];
    }

    /** Pushes block b's bits into its successor s. */
    method PropagateEdge(b: nat, s: nat) returns (changed: bool)
      requires Separate() && Graph().Ok() && b < |succ| && s < |succ|
      modifies consumes, kills
      ensures consumes[..] == old(consumes[..])[s := NewConsumes(old(consumes[..]), b, s)]
      ensures kills[..] == old(kills[..])[s := NewKills(Graph(), old(consumes[..]), old(kills[..]), b, s)]
      ensures changed <==> consumes[..] != old(consumes[..]) || kills[..] != old(kills[..])
    {
      var savedConsumes, savedKills := consumes[s], kills[s];
      consumes[s] := consumes[s] + consumes[b];
      PropagateKills(b, s, old(consumes[..]));
      changed := kills[s] != savedKills || consumes[s] != savedConsumes;
    }

    /** The kills of one edge, once the successor's consumes are up to date. */
    method PropagateKills(b: nat, s: nat, ghost c: Bits)
      requires Separate() && Graph().Ok() && b < |succ| && s < |succ|
      requires |c| == |succ| && consumes[..] == c[s := NewConsumes(c, b, s)]
      modifies kills
      ensures kills[..] == old(kills[..])[s := NewKills(Graph(), c, old(kills[..]), b, s)]
    {
      ghost var k := kills[..];
      assert consumes[..][s] == NewConsumes(c, b, s) && consumes[..][b] == c[b];
      kills[s] := kills[s] + kills[b];
      if suspend[b] {
        kills[s] := kills[s] + consumes[b];
      }
      if suspend[s] {
        kills[s] := kills[s] + consumes[s];
      } else if end[s] {
        kills[s] := {};
      } else {
        kills[s] := kills[s] - {s};
      }
      assert kills[s] == NewKills(Graph(), c, k, b, s);
    }

    /** Iterates over all edges until nothing changes; every round but the last sets a bit. */
    method Iterate()
      requires Separate() && Inv(Graph(), consumes[..], kills[..])
      modifies consumes, kills
      ensures Exact(Graph(), consumes[..], kills[..])
    {
      hide Inv, Missing, Exact, NewConsumes, NewKills, EdgeStable;
      ghost var g := Graph();
      GraphOk(g, consumes[..], kills[..]);
      var changed := true;
      while changed
        invariant Graph() == g && Inv(g, consumes[..], kills[..])
        invariant !changed ==> Stable(g, consumes[..], kills[..])
        decreases Missing(consumes[..]), Missing(kills[..]), changed
      {
        ghost var c0, k0 := consumes[..], kills[..];
        changed := false;
        for i := 0 to |succ|
          invariant Graph() == g && Inv(g, consumes[..], kills[..])
          invariant Progress(changed, c0, k0, consumes[..], kills[..])
          invariant !changed ==> forall b, s | 0 <= b < i && s in succ[b] :: EdgeStable(g, c0, k0, b, s)
        {
          for e := 0 to |succ[i]|
            invariant Graph() == g && Inv(g, consumes[..], kills[..])
            invariant Progress(changed, c0, k0, consumes[..], kills[..])
            invariant !changed ==> forall b, s | 0 <= b < i && s in succ[b] :: EdgeStable(g, c0, k0, b, s)
            invariant !changed ==> forall x | 0 <= x < e :: EdgeStable(g, c0, k0, i, succ[i][x])
          {
            ghost var c, k := consumes[..], kills[..];
            var s := succ[i][e];
            EdgeProgress(g, c, k, i, s);
            EdgeKeepsInv(g, c, k, i, s);
            var more := PropagateEdge(i, s);
            changed := changed || more;
          }
        }
      }
      StableIsExact(g, consumes[..], kills[..]);
    }

    lemma GraphOk(g: Cfg, c: Bits, k: Bits)
      requires Inv(g, c, k)
      ensures g.Ok()
    {
    }

    /** Bits have only been added since the round began, and some were if anything changed. */
    ghost predicate Progress(changed: bool, c0: Bits, k0: Bits, c: Bits, k: Bits) {
      Missing(c) <= Missing(c0) && Missing(k) <= Missing(k0)
      && if changed then Missing(c) < Missing(c0) || Missing(k) < Missing(k0) else c == c0 && k == k0
    }

    /** Whether a value defined in `def` and used in `use` has to live in the coroutine frame. */
    method HasPathCrossingSuspendPoint(def: nat, use: nat) returns (r: bool)
      requires Separate() && Graph().Ok() && Exact(Graph(), consumes[..], kills[..])
      requires def < |succ| && use < |succ|
      ensures r <==> Crosses(Graph(), def, use)
    {
      r := def in kills[use];
    }
  }
}
