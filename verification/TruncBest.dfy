/** Which width a dag may be reduced to: use counts and the requirements the analyses impose. */
module TruncBest {
  import opened Bits
  import opened Ir
  import opened TruncDag
  import opened TruncRewrite
  import opened TruncErase

  function Max(a: nat, b: nat): nat { if a < b then b else a }

  // ----- uses -----

  function Occurrences(ops: seq<Value>, id: Id): nat {
    if ops == [] then 0 else (if ops[0] == Ref(id) then 1 else 0) + Occurrences(ops[1..], id)
  }

  /** The number of uses of `id` among the instructions named below n. */
  function NumUses(p: Program, n: nat, id: Id): nat {
    if n == 0 then 0
    else NumUses(p, n - 1, id) + if n - 1 in p then Occurrences(AllOperands(p[n - 1]), id) else 0
  }

  lemma {:induction false} OccursOnce(ops: seq<Value>, id: Id)
    requires Ref(id) in ops
    ensures Occurrences(ops, id) >= 1
  {
    if ops[0] != Ref(id) { OccursOnce(ops[1..], id); }
  }

  lemma {:induction false} UserCounts(p: Program, n: nat, id: Id, u: Id)
    requires u in p && u < n && Uses(p[u], id)
    ensures NumUses(p, n, id) >= 1
  {
    if u == n - 1 { OccursOnce(AllOperands(p[u]), id); } else { UserCounts(p, n - 1, id, u); }
  }

  lemma {:induction false} TwoUsersCount(p: Program, n: nat, id: Id, u: Id, w: Id)
    requires u in p && w in p && u < w < n && Uses(p[u], id) && Uses(p[w], id)
    ensures NumUses(p, n, id) >= 2
  {
    if w == n - 1 {
      OccursOnce(AllOperands(p[w]), id);
      UserCounts(p, n - 1, id, u);
    } else {
      TwoUsersCount(p, n - 1, id, u, w);
    }
  }

  /** Every dag node is used by the trunc or by another dag node. */
  lemma UsedInside(p: Program, t: Id, keys: seq<Id>, I: Id) returns (u: Id)
    requires t in p && p[t].Cast? && IsDag(p, p[t].src, keys) && I in keys
    ensures u in p && (u == t || u in keys) && Uses(p[u], I)
  {
    var src := p[t].src;
    var path :| PathTo(p, path, src.id, I);
    if |path| == 1 {
      u := t;
      assert src in AllOperands(p[t]);
    } else {
      u := path[|path| - 2];
      assert Edge(p, path[|path| - 2], path[|path| - 1]);
      assert PathTo(p, path[..|path| - 1], src.id, u);
      assert Ref(I) in AllOperands(p[u]);
    }
  }

  /** A node with a single use is not used outside. */
  lemma {:induction false} SingleUseIsInside(p: Program, n: nat, t: Id, keys: seq<Id>, I: Id)
    requires t in p && p[t].Cast? && IsDag(p, p[t].src, keys) && I in keys
    requires forall id | id in p :: id < n
    requires NumUses(p, n, I) == 1
    ensures !UsedOutside(p, t, keys, I)
  {
    var u := UsedInside(p, t, keys, I);
    if UsedOutside(p, t, keys, I) {
      var w :| w in p && w != t && w !in keys && Uses(p[w], I);
      if u < w { TwoUsersCount(p, n, I, u, w); } else { TwoUsersCount(p, n, I, w, u); }
      assert false;
    }
  }

  // ----- requirements -----

  function ActiveBits(x: nat): nat {
    if x == 0 then 0 else 1 + ActiveBits(x / 2)
  }

  lemma {:induction false} ActiveBitsHold(x: nat, m: nat)
    requires ActiveBits(x) <= m
    ensures x < Pow2(m)
  {
    if x > 0 { ActiveBitsHold(x / 2, m - 1); }
  }

  function Min(a: nat, b: nat): nat { if a < b then a else b }

  /** x + 1 saturating at the largest n-bit number, then capped at n. */
  function ShiftRequirement(x: nat, n: nat): nat {
    Min(if x + 1 < Pow2(n) then x + 1 else Pow2(n) - 1, n)
  }

  /** The least width at which the node computes the right low bits. */
  function Requirement(o: Oracle, p: Program, t: Id, n: nat, ins: Instr): nat {
    if !ins.Bin? then 0
    else if IsShift(ins.bop) then
      var s := ShiftRequirement(o.knownMax(p, t, ins.b), n);
      if ins.bop.LShr? then Max(s, ActiveBits(o.knownMax(p, t, ins.a)))
      else if ins.bop.AShr? && n - o.signBits(p, t, ins.a) + 1 > s then n - o.signBits(p, t, ins.a) + 1
      else s
    else if IsDivision(ins.bop) then Max(ActiveBits(o.knownMax(p, t, ins.b)), ActiveBits(o.knownMax(p, t, ins.a)))
    else 0
  }

  lemma {:induction false} ActiveBitsLeast(x: nat, m: nat)
    requires x < Pow2(m)
    ensures ActiveBits(x) <= m
  {
    if x > 0 { ActiveBitsLeast(x / 2, m - 1); }
  }

  /** What the oracle's bounds have to be for a node of a dag n bits wide to be computed at width m. A
      shift amount stays below m; what a right shift brings down, and what is divided, fits in m bits.
      Nothing else restricts the width. */
  predicate BoundsAllow(o: Oracle, p: Program, t: Id, n: nat, ins: Instr, m: nat) {
    match ins
    case Bin(Shl, _, _, b, _) => o.knownMax(p, t, b) < m
    case Bin(LShr, _, a, b, _) => o.knownMax(p, t, b) < m && o.knownMax(p, t, a) < Pow2(m)
    case Bin(AShr, _, a, b, _) => o.knownMax(p, t, b) < m && n < o.signBits(p, t, a) + m
    case Bin(UDiv, _, a, b, _) => o.knownMax(p, t, a) < Pow2(m) && o.knownMax(p, t, b) < Pow2(m)
    case Bin(URem, _, a, b, _) => o.knownMax(p, t, a) < Pow2(m) && o.knownMax(p, t, b) < Pow2(m)
    case _ => true
  }

  lemma {:induction false} BitsIff(x: nat, m: nat)
    ensures ActiveBits(x) <= m <==> x < Pow2(m)
  {
    if ActiveBits(x) <= m { ActiveBitsHold(x, m); }
    if x < Pow2(m) { ActiveBitsLeast(x, m); }
  }

  lemma ShiftIff(x: nat, n: nat, m: nat)
    requires 1 <= m < n
    ensures ShiftRequirement(x, n) <= m <==> x < m
  {
    BelowPow2(n);
    BelowPow2(m);
  }

  /** The requirement is the least width that the oracle's bounds allow, and 0 where there are none. */
  lemma RequirementIff(o: Oracle, p: Program, t: Id, n: nat, ins: Instr, m: nat)
    requires 1 <= m < n
    ensures Requirement(o, p, t, n, ins) <= m <==> BoundsAllow(o, p, t, n, ins, m)
    ensures !(ins.Bin? && (IsShift(ins.bop) || IsDivision(ins.bop))) ==> Requirement(o, p, t, n, ins) == 0
  {
    hide ActiveBits, ShiftRequirement, Pow2;
    if ins.Bin? {
      ShiftIff(o.knownMax(p, t, ins.b), n, m);
      BitsIff(o.knownMax(p, t, ins.a), m);
      BitsIff(o.knownMax(p, t, ins.b), m);
    }
  }

  /** The bounds are what the narrow operation needs to be right. */
  lemma RequirementSuffices(o: Oracle, p: Program, t: Id, I: Id, m: nat)
    requires I in p && 1 <= m < p[I].width
    ensures Requirement(o, p, t, p[I].width, p[I]) <= m <==> SideConditions(o, p, t, I, m)
  {
    RequirementIff(o, p, t, p[I].width, p[I], m);
  }

  /** Below a cast there is nothing. */
  lemma LeafRoot(p: Program, root: Id, id: Id)
    requires root in p && p[root].Cast? && Reaches(p, root, id)
    ensures id == root
  {
    var path :| PathTo(p, path, root, id);
    assert |path| > 1 ==> Edge(p, path[1 - 1], path[1]);
  }
}
