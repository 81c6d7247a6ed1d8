/** Dropping some positions of a sequence and renumbering the rest. */
module Keep {

  function Count(keep: seq<bool>): (n: nat)
    ensures n <= |keep| && (n == |keep| ==> forall i | 0 <= i < |keep| :: keep[i])
  {
    if keep == [] then 0 else Count(keep[..|keep| - 1]) + if keep[|keep| - 1] then 1 else 0
  }

  function Filter<T>(xs: seq<T>, keep: seq<bool>): (r: seq<T>)
    requires |xs| == |keep|
    ensures |r| == Count(keep)
    decreases |xs|
  {
    if xs == [] then []
    else
      var n := |xs| - 1;
      Filter(xs[..n], keep[..n]) + if keep[n] then [xs[n]] else []
  }

  /** Where position i goes: -1 when it is dropped; positions past the end stay. */
  function NewIndex(keep: seq<bool>, i: nat): (j: int)
    ensures j == -1 <==> i < |keep| && !keep[i]
    ensures j >= -1
  {
    if i >= |keep| then i else if keep[i] then Count(keep[..i]) else -1
  }

  lemma CountNothing(keep: seq<bool>)
    ensures Count(keep[..0]) == 0
  {
  }

  /** One position more. */
  lemma CountNext(keep: seq<bool>, i: nat)
    requires i < |keep|
    ensures Count(keep[..i + 1]) == Count(keep[..i]) + if keep[i] then 1 else 0
    ensures NewIndex(keep, i) == if keep[i] then Count(keep[..i]) else -1
  {
    assert keep[..i + 1][..i] == keep[..i];
  }

  predicate All(keep: seq<bool>) {
    forall i | 0 <= i < |keep| :: keep[i]
  }

  lemma {:induction false} CountMonotone(keep: seq<bool>, i: nat, j: nat)
    requires i <= j <= |keep|
    ensures Count(keep[..i]) <= Count(keep[..j])
    decreases j - i
  {
    if i < j {
      assert keep[..j][..j - 1] == keep[..j - 1];
      CountMonotone(keep, i, j - 1);
    }
  }

  /** A kept position is found under its new number, and different positions get different ones. */
  lemma {:induction false} FilterAt<T>(xs: seq<T>, keep: seq<bool>, i: nat)
    requires |xs| == |keep| && i < |xs| && keep[i]
    ensures 0 <= NewIndex(keep, i) < Count(keep)
    ensures Filter(xs, keep)[NewIndex(keep, i)] == xs[i]
    decreases |xs|
  {
    var n := |xs| - 1;
    if i < n {
      assert keep[..n][..i] == keep[..i];
      FilterAt(xs[..n], keep[..n], i);
    } else {
      assert keep[..n] == keep[..i];
    }
  }

  lemma {:induction false} NewIndexOrdered(keep: seq<bool>, i: nat, j: nat)
    requires i < j < |keep| && keep[i] && keep[j]
    ensures NewIndex(keep, i) < NewIndex(keep, j)
  {
    assert keep[..i + 1][..i] == keep[..i];
    CountMonotone(keep, i + 1, j);
  }

  lemma {:induction false} FilterAll<T>(xs: seq<T>, keep: seq<bool>)
    requires |xs| == |keep| && All(keep)
    ensures Filter(xs, keep) == xs && Count(keep) == |keep|
    decreases |xs|
  {
    if xs != [] {
      var n := |xs| - 1;
      FilterAll(xs[..n], keep[..n]);
      assert xs == xs[..n] + [xs[n]];
    }
  }

  lemma {:induction false} CountAll(keep: seq<bool>)
    requires All(keep)
    ensures Count(keep) == |keep|
    ensures forall i: nat :: NewIndex(keep, i) == i
  {
    FilterAll(keep, keep);
    forall i: nat ensures NewIndex(keep, i) == i {
      if i < |keep| {
        FilterAll(keep[..i], keep[..i]);
      }
    }
  }

  lemma {:induction false} CountNone(n: nat)
    ensures Count(seq(n, i => false)) == 0
  {
    if n > 0 {
      CountNone(n - 1);
      assert seq(n, i => false)[..n - 1] == seq(n - 1, i => false);
    }
  }

  lemma {:induction false} CountAfterUpdate(s: seq<bool>, i: nat)
    requires i < |s| && !s[i]
    ensures Count(s[i := true]) == Count(s) + 1
    decreases |s|
  {
    var n := |s| - 1;
    if i < n {
      assert s[i := true][..n] == s[..n][i := true];
      CountAfterUpdate(s[..n], i);
    } else {
      assert s[i := true][..n] == s[..n];
    }
  }

  /** Dropping positions of the first operands, keeping any surplus. */
  function KeepFirst<T>(xs: seq<T>, keep: seq<bool>): (r: seq<T>)
    requires |keep| <= |xs|
    ensures |r| == Count(keep) + |xs| - |keep|
  {
    Filter(xs[..|keep|], keep) + xs[|keep|..]
  }

  /** Kept positions are found under their new numbers, surplus ones after them in order. */
  lemma {:induction false} KeepFirstAt<T>(xs: seq<T>, keep: seq<bool>)
    requires |keep| <= |xs|
    ensures forall i: nat | i < |keep| && keep[i] ::
              0 <= NewIndex(keep, i) < Count(keep) && KeepFirst(xs, keep)[NewIndex(keep, i)] == xs[i]
    ensures forall v | |keep| <= v < |xs| :: KeepFirst(xs, keep)[Count(keep) + v - |keep|] == xs[v]
  {
    hide NewIndex, Count, Filter;
    forall i: nat | i < |keep| && keep[i]
      ensures 0 <= NewIndex(keep, i) < Count(keep) && KeepFirst(xs, keep)[NewIndex(keep, i)] == xs[i]
    {
      FilterAt(xs[..|keep|], keep, i);
    }
  }
}
