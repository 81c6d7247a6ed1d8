/** Access paths known to be safe to load, kept as an ordered set in which no path is a prefix of
    another, so that one ordered search answers "is some prefix of this path safe?". */
module PrefixSet {

  type Path = seq<nat>

  /** Lexicographic order of index vectors. */
  predicate Less(a: Path, b: Path) {
    b != [] && (a == [] || a[0] < b[0] || (a[0] == b[0] && Less(a[1..], b[1..])))
  }

  /** Prefix is a prefix of Longer, possibly all of it. */
  predicate IsPrefix(prefix: Path, longer: Path) {
    |prefix| <= |longer| && prefix == longer[..|prefix|]
  }

  /** The order is that of a dictionary: at the first difference the smaller index decides, and a path comes
      before its extensions. */
  lemma {:induction false} LessMeans(a: Path, b: Path)
    ensures Less(a, b) <==> exists k :: 0 <= k < |b| && k <= |a| && a[..k] == b[..k] && (k == |a| || a[k] < b[k])
  {
    if a != [] && b != [] && a[0] == b[0] {
      LessMeans(a[1..], b[1..]);
      assert a == [a[0]] + a[1..] && b == [b[0]] + b[1..];
      if k :| 0 <= k < |b[1..]| && k <= |a[1..]| && a[1..][..k] == b[1..][..k]
              && (k == |a[1..]| || a[1..][k] < b[1..][k]) {
        assert a[..k + 1] == [a[0]] + a[1..][..k] && b[..k + 1] == [b[0]] + b[1..][..k];
      }
      if k :| 0 <= k < |b| && k <= |a| && a[..k] == b[..k] && (k == |a| || a[k] < b[k]) {
        assert k > 0;
        assert a[1..][..k - 1] == a[..k][1..] && b[1..][..k - 1] == b[..k][1..];
      }
    } else if b != [] {
      assert a[..0] == b[..0];
      if k :| 0 <= k < |b| && k <= |a| && a[..k] == b[..k] && (k == |a| || a[k] < b[k]) {
        assert k > 0 ==> a[..k][0] == b[..k][0];
      }
    }
  }

  lemma {:induction false} LessIrreflexive(a: Path)
    ensures !Less(a, a)
  {
    if a != [] { LessIrreflexive(a[1..]); }
  }

  lemma {:induction false} LessTransitive(a: Path, b: Path, c: Path)
    requires Less(a, b) && Less(b, c)
    ensures Less(a, c)
  {
    if a != [] && a[0] == b[0] == c[0] { LessTransitive(a[1..], b[1..], c[1..]); }
  }

  lemma {:induction false} LessTotal(a: Path, b: Path)
    ensures Less(a, b) || a == b || Less(b, a)
  {
    if a != [] && b != [] && a[0] == b[0] {
      LessTotal(a[1..], b[1..]);
      assert a == [a[0]] + a[1..] && b == [b[0]] + b[1..];
    }
  }

  lemma {:induction false} PrefixNotGreater(p: Path, q: Path)
    requires IsPrefix(p, q)
    ensures !Less(q, p)
  {
    if p != [] {
      assert p[1..] == q[1..][..|p| - 1];
      PrefixNotGreater(p[1..], q[1..]);
    }
  }

  /** Extensions of a path are contiguous: whatever lies between it and an extension extends it too. */
  lemma {:induction false} Between(p: Path, r: Path, q: Path)
    requires IsPrefix(p, q) && !Less(r, p) && !Less(q, r)
    ensures IsPrefix(p, r)
  {
    if p != [] {
      LessTotal(r, p);
      LessTotal(q, r);
      assert p[0] == q[0] && p[1..] == q[1..][..|p| - 1];
      assert r != [] && r[0] == p[0];
      Between(p[1..], r[1..], q[1..]);
      assert r == [r[0]] + r[1..] && p == [p[0]] + p[1..];
    }
  }

  lemma PrefixOfPrefix(a: Path, b: Path, c: Path)
    requires IsPrefix(a, b) && IsPrefix(b, c)
    ensures IsPrefix(a, c)
  {
  }

  // ----- the set -----

  ghost predicate Sorted(s: seq<Path>) {
    forall i, j | 0 <= i < j < |s| :: Less(s[i], s[j])
  }

  ghost predicate PrefixFree(s: seq<Path>) {
    forall i, j | 0 <= i < |s| && 0 <= j < |s| && i != j :: !IsPrefix(s[i], s[j])
  }

  /** The linear search the ordered one stands for. */
  ghost predicate Covers(s: seq<Path>, p: Path) {
    exists i :: 0 <= i < |s| && IsPrefix(s[i], p)
  }

  /** `at` splits the set into paths up to `p` and paths after it. */
  ghost predicate IsUpperBound(s: seq<Path>, p: Path, at: nat) {
    at <= |s| && (forall i | 0 <= i < at :: !Less(p, s[i])) && forall i | at <= i < |s| :: Less(p, s[i])
  }

  /** Only the last path not above `p` can be a prefix of it. */
  lemma OnlyLowMatters(s: seq<Path>, p: Path, at: nat)
    requires Sorted(s) && PrefixFree(s) && IsUpperBound(s, p, at)
    ensures Covers(s, p) <==> at > 0 && IsPrefix(s[at - 1], p)
  {
    forall i | at <= i < |s| ensures !IsPrefix(s[i], p) { NotBelowPrefix(p, s[i]); }
    forall i | 0 <= i < at - 1 ensures !IsPrefix(s[i], p) {
      LessAsymmetric(s[i], s[at - 1]);
      if IsPrefix(s[i], p) { Between(s[i], s[at - 1], p); }
    }
  }

  lemma {:induction false} LessAsymmetric(a: Path, b: Path)
    requires Less(a, b)
    ensures !Less(b, a)
  {
    LessIrreflexive(a);
    if Less(b, a) { LessTransitive(a, b, a); }
  }

  lemma {:induction false} NotBelowPrefix(p: Path, q: Path)
    requires Less(p, q)
    ensures !IsPrefix(q, p)
  {
    if IsPrefix(q, p) { PrefixNotGreater(q, p); }
  }

  // ----- marking -----

  /** The set after the new path has taken the place of its n extensions, which follow it. */
  function Marked(s: seq<Path>, p: Path, at: nat, n: nat): seq<Path>
    requires at + n <= |s|
  {
    s[..at] + [p] + s[at + n..]
  }

  lemma MarkedSorted(s: seq<Path>, p: Path, at: nat, n: nat)
    requires Sorted(s) && IsUpperBound(s, p, at) && at + n <= |s| && p !in s[..at]
    ensures Sorted(Marked(s, p, at, n))
  {
    var t := Marked(s, p, at, n);
    forall i | 0 <= i < at ensures Less(s[i], p) {
      LessTotal(s[i], p);
      assert s[..at][i] == s[i];
    }
  }

  /** The extensions of `p` are exactly the n paths that follow its place. */
  ghost predicate AreExtensions(s: seq<Path>, p: Path, at: nat, n: nat) {
    at + n <= |s| && (forall i | at <= i < at + n :: IsPrefix(p, s[i])) && (at + n < |s| ==> !IsPrefix(p, s[at + n]))
  }

  lemma NoLaterExtension(s: seq<Path>, p: Path, at: nat, n: nat, i: nat)
    requires Sorted(s) && IsUpperBound(s, p, at) && AreExtensions(s, p, at, n) && at + n <= i < |s|
    ensures !IsPrefix(p, s[i])
  {
    if IsPrefix(p, s[i]) && i > at + n {
      assert Less(p, s[at + n]) && Less(s[at + n], s[i]);
      LessAsymmetric(p, s[at + n]);
      LessAsymmetric(s[at + n], s[i]);
      Between(p, s[at + n], s[i]);
      assert false;
    }
  }

  lemma NoEarlierExtension(s: seq<Path>, p: Path, at: nat, i: nat)
    requires IsUpperBound(s, p, at) && i < at && s[i] != p
    ensures !IsPrefix(p, s[i])
  {
    if IsPrefix(p, s[i]) {
      PrefixNotGreater(p, s[i]);
      LessTotal(p, s[i]);
      assert false;
    }
  }

  lemma MarkedPrefixFree(s: seq<Path>, p: Path, at: nat, n: nat)
    requires Sorted(s) && PrefixFree(s) && IsUpperBound(s, p, at) && AreExtensions(s, p, at, n) && !Covers(s, p)
    ensures PrefixFree(Marked(s, p, at, n))
  {
    var t := Marked(s, p, at, n);
    forall i | 0 <= i < |s| && !(at <= i < at + n) ensures !IsPrefix(p, s[i]) && !IsPrefix(s[i], p) {
      if i < at { NoEarlierExtension(s, p, at, i); } else { NoLaterExtension(s, p, at, n, i); }
    }
    forall i, j | 0 <= i < |t| && 0 <= j < |t| && i != j ensures !IsPrefix(t[i], t[j]) {
      MarkedElement(s, p, at, n, i);
      MarkedElement(s, p, at, n, j);
    }
  }

  lemma MarkedElement(s: seq<Path>, p: Path, at: nat, n: nat, i: nat)
    requires at + n <= |s| && i < |Marked(s, p, at, n)|
    ensures Marked(s, p, at, n)[i] == if i < at then s[i] else if i == at then p else s[i + n - 1]
  {
  }

  lemma MarkedCovers(s: seq<Path>, p: Path, at: nat, n: nat, q: Path)
    requires AreExtensions(s, p, at, n)
    ensures Covers(Marked(s, p, at, n), q) <==> Covers(s, q) || IsPrefix(p, q)
  {
    var t := Marked(s, p, at, n);
    if Covers(t, q) {
      var i :| 0 <= i < |t| && IsPrefix(t[i], q);
      MarkedElement(s, p, at, n, i);
      if i != at { assert IsPrefix(s[if i < at then i else i + n - 1], q); }
    }
    if IsPrefix(p, q) {
      assert IsPrefix(t[at], q);
    }
    if Covers(s, q) {
      var i :| 0 <= i < |s| && IsPrefix(s[i], q);
      if at <= i < at + n {
        PrefixOfPrefix(p, s[i], q);
        assert IsPrefix(t[at], q);
      } else {
        var k := if i < at then i else i - n + 1;
        MarkedElement(s, p, at, n, k);
        assert IsPrefix(t[k], q);
      }
    }
  }

  class SafePaths {
    var elems: seq<Path>

    ghost predicate Valid()
      reads this
    {
      Sorted(elems) && PrefixFree(elems)
    }

    constructor ()
      ensures Valid() && elems == []
    {
      elems := [];
    }

    /** A plain insertion, used only while nothing is known to be safe. */
    method InsertFirst(p: Path)
      requires elems == []
      modifies this
      ensures Valid() && elems == [p] && forall q :: Covers(elems, q) <==> IsPrefix(p, q)
    {
      elems := [p];
      assert elems[0] == p;
    }

    method UpperBound(p: Path) returns (at: nat)
      requires Sorted(elems)
      ensures IsUpperBound(elems, p, at)
    {
      var lo, hi := 0, |elems|;
      while lo < hi
        invariant 0 <= lo <= hi <= |elems|
        invariant forall i | 0 <= i < lo :: !Less(p, elems[i])
        invariant forall i | hi <= i < |elems| :: Less(p, elems[i])
      {
        var mid := (lo + hi) / 2;
        if Less(p, elems[mid]) {
          forall i | mid <= i < |elems| ensures Less(p, elems[i]) {
            if i > mid { LessTransitive(p, elems[mid], elems[i]); }
          }
          hi := mid;
        } else {
          forall i | 0 <= i <= mid ensures !Less(p, elems[i]) {
            if i < mid && Less(p, elems[i]) { LessTransitive(p, elems[i], elems[mid]); }
          }
          lo := mid + 1;
        }
      }
      at := lo;
    }

    /** Whether some prefix of the path is in the set. */
    method PrefixIn(indices: Path) returns (r: bool)
      requires Valid()
      ensures r <==> Covers(elems, indices)
    {
      var low := UpperBound(indices);
      OnlyLowMatters(elems, indices, low);
      if low != 0 {
        low := low - 1;
      } else {
        OnlyAboveWhenFirst(elems, indices);
      }
      r := low != |elems| && IsPrefix(elems[low], indices);
    }

    lemma OnlyAboveWhenFirst(s: seq<Path>, p: Path)
      requires IsUpperBound(s, p, 0)
      ensures s != [] ==> !IsPrefix(s[0], p)
    {
      if s != [] { NotBelowPrefix(p, s[0]); }
    }

    /** Makes every extension of the path safe, keeping the set free of redundant paths. */
    method MarkIndicesSafe(toMark: Path)
      requires Valid()
      modifies this
      ensures Valid()
      ensures forall q :: Covers(elems, q) <==> Covers(old(elems), q) || IsPrefix(toMark, q)
      ensures Covers(old(elems), toMark) ==> elems == old(elems)
      ensures !Covers(old(elems), toMark) ==> forall q ::
              q in elems <==> q == toMark || (q in old(elems) && !IsPrefix(toMark, q))
    {
      hide Sorted, PrefixFree, Covers, Less, IsPrefix;
      ghost var s := elems;
      var low := UpperBound(toMark);
      var at := low;
      OnlyLowMatters(elems, toMark, low);
      if low == 0 { OnlyAboveWhenFirst(elems, toMark); }
      if low != 0 {
        low := low - 1;
      }
      if low != |elems| {
        if IsPrefix(elems[low], toMark) {
          CoveredExtensions(elems, toMark);
          return;
        }
      }
      // The set finds the place itself; the iterator passed along is only a hint.
      elems := elems[..at] + [toMark] + elems[at..];
      low := at + 1;
      ghost var n := 0;
      while low < |elems| && IsPrefix(toMark, elems[low])
        invariant at + n <= |s| && elems == Marked(s, toMark, at, n) && low == at + 1
        invariant forall i | at <= i < at + n :: IsPrefix(toMark, s[i])
        decreases |elems|
      {
        MarkedElement(s, toMark, at, n, low);
        elems := elems[..low] + elems[low + 1..];
        n := n + 1;
      }
      if at + n < |s| { MarkedElement(s, toMark, at, n, low); }
      NotMember(s, toMark, at);
      MarkedSorted(s, toMark, at, n);
      MarkedPrefixFree(s, toMark, at, n);
      forall q ensures Covers(elems, q) <==> Covers(s, q) || IsPrefix(toMark, q) {
        MarkedCovers(s, toMark, at, n, q);
      }
      MarkedMembers(s, toMark, at, n);
    }

    lemma CoveredExtensions(s: seq<Path>, p: Path)
      requires Covers(s, p)
      ensures forall q :: IsPrefix(p, q) ==> Covers(s, q)
    {
      var i :| 0 <= i < |s| && IsPrefix(s[i], p);
      forall q | IsPrefix(p, q) ensures Covers(s, q) { PrefixOfPrefix(s[i], p, q); }
    }

    lemma NotMember(s: seq<Path>, p: Path, at: nat)
      requires !Covers(s, p) && at <= |s|
      ensures p !in s[..at]
    {
      assert forall i | 0 <= i < at :: s[i] == p ==> IsPrefix(s[i], p);
    }

    /** The extensions of the path are exactly the erased run. */
    lemma ErasedRun(s: seq<Path>, p: Path, at: nat, n: nat, i: nat)
      requires Sorted(s) && IsUpperBound(s, p, at) && AreExtensions(s, p, at, n) && !Covers(s, p) && i < |s|
      ensures IsPrefix(p, s[i]) <==> at <= i < at + n
    {
      if i < at { NoEarlierExtension(s, p, at, i); } else if i >= at + n { NoLaterExtension(s, p, at, n, i); }
    }

    lemma MarkedMember(s: seq<Path>, p: Path, at: nat, n: nat, q: Path)
      requires Sorted(s) && IsUpperBound(s, p, at) && AreExtensions(s, p, at, n) && !Covers(s, p)
      ensures q in Marked(s, p, at, n) ==> q == p || (q in s && !IsPrefix(p, q))
    {
      hide Sorted, Covers, IsUpperBound, IsPrefix, Less;
      var t := Marked(s, p, at, n);
      if q in t {
        var i :| 0 <= i < |t| && t[i] == q;
        MarkedElement(s, p, at, n, i);
        if i != at { ErasedRun(s, p, at, n, if i < at then i else i + n - 1); }
      }
    }

    lemma KeptMember(s: seq<Path>, p: Path, at: nat, n: nat, q: Path)
      requires Sorted(s) && IsUpperBound(s, p, at) && AreExtensions(s, p, at, n) && !Covers(s, p)
      ensures q == p || (q in s && !IsPrefix(p, q)) ==> q in Marked(s, p, at, n)
    {
      hide Sorted, Covers, IsUpperBound, IsPrefix, Less;
      var t := Marked(s, p, at, n);
      if q == p {
        assert t[at] == q;
      } else if q in s && !IsPrefix(p, q) {
        var i :| 0 <= i < |s| && s[i] == q;
        ErasedRun(s, p, at, n, i);
        var k := if i < at then i else i - n + 1;
        MarkedElement(s, p, at, n, k);
        assert t[k] == q;
      }
    }

    lemma MarkedMembers(s: seq<Path>, p: Path, at: nat, n: nat)
      requires Sorted(s) && IsUpperBound(s, p, at) && AreExtensions(s, p, at, n) && !Covers(s, p)
      ensures forall q :: q in Marked(s, p, at, n) <==> q == p || (q in s && !IsPrefix(p, q))
    {
      hide Sorted, Covers, IsUpperBound, IsPrefix, Less, Marked;
      forall q ensures q in Marked(s, p, at, n) <==> q == p || (q in s && !IsPrefix(p, q)) {
        MarkedMember(s, p, at, n, q);
        KeptMember(s, p, at, n, q);
      }
    }
  }
}
