/** Chains of and or or over shifted copies of one value, folded to a single masked compare. */
module MaskChains {
  import opened Collections
  import opened Bits
  import opened Ir
  import opened Idioms

  // ----- single bits -----

  predicate Bit(x: nat, i: nat) { Quotient(x, Pow2(i)) % 2 == 1 }

  /** The number whose set bits are those in `bits` from position i to below w, moved down by i. */
  function MaskFrom(bits: set<nat>, i: nat, w: nat): nat
    requires i <= w
    decreases w - i
  {
    if i == w then 0 else (if i in bits then 1 else 0) + 2 * MaskFrom(bits, i + 1, w)
  }

  function MaskValue(bits: set<nat>, w: nat): nat { MaskFrom(bits, 0, w) }

  lemma {:induction false} HighDigits(x: nat, i: nat)
    ensures Quotient(x, Pow2(i)) / 2 == Quotient(x, Pow2(i + 1))
  {
    var p := Pow2(i);
    var q := x / p;
    assert x == q * p + x % p;
    assert q == 2 * (q / 2) + q % 2;
    assert q * p == (q / 2) * (2 * p) + (q % 2) * p;
    MulMonotone(q % 2, 1, p);
    QuotientIsUnique(q / 2, 2 * p, (q % 2) * p + x % p);
  }

  /** Masking keeps exactly the chosen bits: none are set, or all are, as the bits themselves say. */
  lemma {:induction false} MaskedBits(x: nat, bits: set<nat>, i: nat, w: nat)
    requires i <= w
    ensures var m := Bitwise(LAnd, Quotient(x, Pow2(i)), MaskFrom(bits, i, w));
            (m != 0 <==> exists b :: i <= b < w && b in bits && Bit(x, b))
            && (m == MaskFrom(bits, i, w) <==> forall b | i <= b < w && b in bits :: Bit(x, b))
    decreases w - i
  {
    hide Bitwise;
    var q, k := Quotient(x, Pow2(i)), MaskFrom(bits, i, w);
    if i == w {
      AndWithZero(q);
    } else {
      MaskedBits(x, bits, i + 1, w);
      HighDigits(x, i);
      BitwiseStep(LAnd, q, k);
      var d := if i in bits then 1 else 0;
      LowDigit(d, MaskFrom(bits, i + 1, w));
      var m, m1 := Bitwise(LAnd, q, k), Bitwise(LAnd, Quotient(x, Pow2(i + 1)), MaskFrom(bits, i + 1, w));
      assert m == Digit(LAnd, q % 2, d) + 2 * m1;
      assert Bit(x, i) <==> q % 2 == 1;
      if exists b :: i <= b < w && b in bits && Bit(x, b) {
        var b :| i <= b < w && b in bits && Bit(x, b);
        assert b == i || i + 1 <= b;
      }
    }
  }

  lemma {:induction false} AndWithZero(x: nat)
    ensures Bitwise(LAnd, x, 0) == 0
  {
    PopCount.AndZero(x);
  }

  // ----- the record filled in while walking a chain -----

  /** Bit 0 of a chain over `bits` of root value r. */
  ghost predicate ChainBit(ands: bool, bits: set<nat>, r: nat) {
    if ands then forall b | b in bits :: Bit(r, b) else exists b :: b in bits && Bit(r, b)
  }

  /** The chain's value is undefined when its root is, and otherwise has the chain's bit at the bottom. */
  ghost predicate Tracks(ands: bool, bits: set<nat>, low: bool, ev: Val, rv: Val) {
    match rv
    case UB => ev.UB?
    case Poison => ev.Poison?
    case Int(r) => ev.Poison? || (ev.Int? && (ev.n % 2 == 1 <==> ChainBit(ands, bits, r)) && (low ==> ev.n < 2))
  }

  ghost predicate Chain(ands: bool, w: nat, v: Expr, root: Expr, bits: set<nat>, low: bool)
    requires w >= 1
  {
    forall env :: Tracks(ands, bits, low, Eval(v, w, env), Eval(root, w, env))
  }

  lemma AndTracks(w: nat, f: Flags, b1: set<nat>, l1: bool, x: Val, b2: set<nat>, l2: bool, y: Val, r: Val)
    requires w >= 1 && Tracks(true, b1, l1, x, r) && Tracks(true, b2, l2, y, r)
    ensures Tracks(true, b1 + b2, l1 || l2, EvalBin(And, f, w, x, y), r)
  {
    hide Bitwise;
    if x.Int? && y.Int? {
      BitwiseStep(LAnd, x.n, y.n);
      if l1 { AndBelow(x.n, y.n); }
      if l2 { AndBelow(y.n, x.n); AndCommutes(x.n, y.n); }
    }
  }

  lemma {:induction false} AndBelow(x: nat, y: nat)
    requires x < 2
    ensures Bitwise(LAnd, x, y) < 2
  {
    BitwiseStep(LAnd, x, y);
    AndCommutes(0, y / 2);
    AndWithZero(y / 2);
  }

  lemma {:induction false} AndCommutes(x: nat, y: nat)
    ensures Bitwise(LAnd, x, y) == Bitwise(LAnd, y, x)
    decreases x + y
  {
    if x + y > 0 {
      BitwiseStep(LAnd, x, y);
      BitwiseStep(LAnd, y, x);
      AndCommutes(x / 2, y / 2);
    }
  }

  lemma OrTracks(w: nat, f: Flags, b1: set<nat>, x: Val, b2: set<nat>, y: Val, r: Val)
    requires w >= 1 && Tracks(false, b1, false, x, r) && Tracks(false, b2, false, y, r)
    ensures Tracks(false, b1 + b2, false, EvalBin(Or, f, w, x, y), r)
  {
    hide Bitwise;
    if x.Int? && y.Int? { BitwiseStep(LOr, x.n, y.n); }
  }

  /** A bare value shows its bit 0, a right shift by k its bit k. */
  lemma ShiftTracks(ands: bool, w: nat, f: Flags, x: Val, k: nat)
    requires w >= 1 && k < w
    ensures Tracks(ands, {k}, false, EvalBin(LShr, f, w, x, Int(k)), x)
  {
  }

  lemma BareTracks(ands: bool, x: Val)
    ensures Tracks(ands, {0}, false, x, x)
  {
    if x.Int? { QuotientIsUnique(x.n, 1, 0); }
  }

  lemma AndOneTracks(w: nat, f: Flags, bits: set<nat>, low: bool, x: Val, r: Val)
    requires w >= 1 && Tracks(true, bits, low, x, r)
    ensures Tracks(true, bits, true, EvalBin(And, f, w, x, Int(1)), r)
  {
    hide Bitwise;
    if x.Int? { AndOne(x.n); }
  }

  lemma {:induction false} AndOne(x: nat)
    ensures Bitwise(LAnd, x, 1) == x % 2
  {
    BitwiseStep(LAnd, x, 1);
    AndWithZero(x / 2);
  }

  /** What a link of the chain takes its bit from, and which bit. */
  function Candidate(v: Expr): Expr { if IsShifted(v) then v.l else v }

  function BitIndex(v: Expr): nat { if IsShifted(v) then v.r.n else 0 }

  predicate IsShifted(v: Expr) { IsNode(v, LShr) && v.r.Num? }

  predicate IsLink(ands: bool, v: Expr) { !IsNode(v, if ands then And else Or) }

  predicate CutsToOne(ands: bool, v: Expr) { ands && IsNode(v, And) && v.r == Num(1) }

  /** The source of the leftmost link. */
  function FirstRoot(ands: bool, v: Expr): Expr {
    if IsLink(ands, v) then Candidate(v) else FirstRoot(ands, v.l)
  }

  /** Every link takes a bit below w from the root. */
  predicate IsChain(ands: bool, w: nat, v: Expr, root: Expr) {
    if IsLink(ands, v) then Candidate(v) == root && BitIndex(v) < w
    else IsChain(ands, w, v.l, root) && (CutsToOne(ands, v) || IsChain(ands, w, v.r, root))
  }

  /** The bits taken. */
  function ChainBits(ands: bool, v: Expr): set<nat> {
    if IsLink(ands, v) then {BitIndex(v)}
    else ChainBits(ands, v.l) + if CutsToOne(ands, v) then {} else ChainBits(ands, v.r)
  }

  /** Somewhere the chain is cut to its lowest bit. */
  predicate HasAnd1(ands: bool, v: Expr) {
    !IsLink(ands, v) && (CutsToOne(ands, v) || HasAnd1(ands, v.l) || HasAnd1(ands, v.r))
  }

  class MaskOps {
    const bitWidth: nat
    const matchAndChain: bool
    var root: Option<Expr>
    var mask: set<nat>       // the positions of the set bits
    var foundAnd1: bool

    constructor (bitWidth: nat, matchAnds: bool)
      ensures this.bitWidth == bitWidth && matchAndChain == matchAnds
      ensures root.None? && mask == {} && !foundAnd1
    {
      this.bitWidth, matchAndChain := bitWidth, matchAnds;
      root, mask, foundAnd1 := None, {}, false;
    }
  }

  /** Walks a chain, noting the common source, the bits taken from it, and any "and x, 1". It
      succeeds just on chains over one source; the record is meaningful only then. */
  method MatchAndOrChain(v: Expr, mops: MaskOps) returns (ok: bool)
    requires mops.bitWidth >= 1
    modifies mops
    ensures ok <==> IsChain(mops.matchAndChain, mops.bitWidth, v,
                            if old(mops.root).Some? then old(mops.root).value else FirstRoot(mops.matchAndChain, v))
    ensures ok ==> mops.root == if old(mops.root).Some? then old(mops.root) else Some(FirstRoot(mops.matchAndChain, v))
    ensures ok ==> mops.mask == old(mops.mask) + ChainBits(mops.matchAndChain, v)
    ensures ok ==> (mops.foundAnd1 <==> old(mops.foundAnd1) || HasAnd1(mops.matchAndChain, v))
    decreases v
  {
    if mops.matchAndChain {
      if IsNode(v, And) && v.r == Num(1) {
        mops.foundAnd1 := true;
        ok := MatchAndOrChain(v.l, mops);
        return;
      }
      if IsNode(v, And) {
        ok := MatchAndOrChain(v.l, mops);
        if ok {
          ok := MatchAndOrChain(v.r, mops);
        }
        return;
      }
    } else {
      if IsNode(v, Or) {
        ok := MatchAndOrChain(v.l, mops);
        if ok {
          ok := MatchAndOrChain(v.r, mops);
        }
        return;
      }
    }
    var shifted := IsNode(v, LShr) && v.r.Num?;
    var candidate := if shifted then v.l else v;
    if mops.root.None? {
      mops.root := Some(candidate);
    }
    if shifted && v.r.n >= mops.bitWidth {
      return false;
    }
    mops.mask := mops.mask + {if shifted then v.r.n else 0};
    ok := mops.root == Some(candidate);
  }

  /** A chain's lowest bit is the conjunction or disjunction of the bits taken. */
  lemma {:induction false} ChainMeans(ands: bool, w: nat, v: Expr, root: Expr)
    requires w >= 1 && IsChain(ands, w, v, root)
    ensures Chain(ands, w, v, root, ChainBits(ands, v), HasAnd1(ands, v))
    ensures ChainBits(ands, v) != {} && forall b | b in ChainBits(ands, v) :: b < w
    ensures !ands ==> !HasAnd1(ands, v)
    decreases v
  {
    hide Chain, Bit, Eval;
    if IsLink(ands, v) {
      ChainLeaf(ands, w, v, Candidate(v), IsShifted(v), BitIndex(v));
    } else {
      ChainMeans(ands, w, v.l, root);
      if CutsToOne(ands, v) {
        ChainAndOne(w, v, root, ChainBits(ands, v.l), HasAnd1(ands, v.l));
        assert ChainBits(ands, v) == ChainBits(ands, v.l);
      } else {
        ChainMeans(ands, w, v.r, root);
        if ands {
          ChainAnd(w, v, root, ChainBits(ands, v.l), HasAnd1(ands, v.l), ChainBits(ands, v.r), HasAnd1(ands, v.r));
        } else {
          ChainOr(w, v, root, ChainBits(ands, v.l), ChainBits(ands, v.r));
        }
      }
    }
  }

  lemma ChainLeaf(ands: bool, w: nat, v: Expr, candidate: Expr, shifted: bool, bit: nat)
    requires w >= 1
    requires if shifted then IsNode(v, LShr) && v.r == Num(bit) && v.l == candidate && bit < w
             else v == candidate && bit == 0
    ensures Chain(ands, w, v, candidate, {bit}, false)
  {
    hide Tracks;
    forall env ensures Tracks(ands, {bit}, false, Eval(v, w, env), Eval(candidate, w, env)) {
      if shifted {
        ShiftTracks(ands, w, v.flags, Eval(candidate, w, env), bit);
      } else {
        BareTracks(ands, Eval(v, w, env));
      }
    }
  }

  lemma ChainAnd(w: nat, v: Expr, root: Expr, b1: set<nat>, l1: bool, b2: set<nat>, l2: bool)
    requires w >= 1 && IsNode(v, And) && Chain(true, w, v.l, root, b1, l1) && Chain(true, w, v.r, root, b2, l2)
    ensures Chain(true, w, v, root, b1 + b2, l1 || l2)
  {
    hide Tracks;
    forall env ensures Tracks(true, b1 + b2, l1 || l2, Eval(v, w, env), Eval(root, w, env)) {
      AndTracks(w, v.flags, b1, l1, Eval(v.l, w, env), b2, l2, Eval(v.r, w, env), Eval(root, w, env));
    }
  }

  lemma ChainOr(w: nat, v: Expr, root: Expr, b1: set<nat>, b2: set<nat>)
    requires w >= 1 && IsNode(v, Or) && Chain(false, w, v.l, root, b1, false) && Chain(false, w, v.r, root, b2, false)
    ensures Chain(false, w, v, root, b1 + b2, false)
  {
    hide Tracks;
    forall env ensures Tracks(false, b1 + b2, false, Eval(v, w, env), Eval(root, w, env)) {
      OrTracks(w, v.flags, b1, Eval(v.l, w, env), b2, Eval(v.r, w, env), Eval(root, w, env));
    }
  }

  lemma ChainAndOne(w: nat, v: Expr, root: Expr, bits: set<nat>, low: bool)
    requires w >= 1 && IsNode(v, And) && v.r == Num(1) && Chain(true, w, v.l, root, bits, low)
    ensures Chain(true, w, v, root, bits, true)
  {
    hide Tracks;
    forall env ensures Tracks(true, bits, true, Eval(v, w, env), Eval(root, w, env)) {
      AndOneTracks(w, v.flags, bits, low, Eval(v.l, w, env), Eval(root, w, env));
    }
  }

  // ----- the fold -----

  /** zext((root & mask) == mask) or zext((root & mask) != 0). */
  datatype Compare = Compare(root: Expr, mask: set<nat>, allBits: bool)

  function EvalCompare(c: Compare, w: nat, env: Valuation): Val
    requires w >= 1
  {
    var r, m := Eval(c.root, w, env), MaskValue(c.mask, w);
    if !r.Int? then r
    else
      var masked := Bitwise(LAnd, r.n, m);
      Int(if (if c.allBits then masked == m else masked != 0) then 1 else 0)
  }

  predicate OneUse(e: Expr, op: BinOp) { IsNode(e, op) && e.oneUse }

  /** The pattern was an and-chain. */
  predicate MatchesAll(e: Expr) { IsNode(e, And) && (OneUse(e.l, And) || OneUse(e.r, And)) }

  /** The pattern is an or-chain cut to its lowest bit. */
  predicate MatchesAny(e: Expr) { IsNode(e, And) && OneUse(e.l, Or) && e.r == Num(1) }

  /** What the fold accepts: a chain over one source, cut to its lowest bit. */
  predicate Foldable(e: Expr, w: nat) {
    if MatchesAll(e) then IsChain(true, w, e, FirstRoot(true, e)) && HasAnd1(true, e)
    else MatchesAny(e) && IsChain(false, w, e.l, FirstRoot(false, e.l))
  }

  /** Folds the expression to a masked compare that refines it. */
  method FoldAnyOrAllBitsSet(e: Expr, w: nat) returns (r: Option<Compare>)
    requires w >= 1
    ensures r.Some? <==> Foldable(e, w)
    ensures r.Some? ==> forall env :: Refines(Eval(e, w, env), EvalCompare(r.value, w, env))
    ensures r.Some? ==> r.value == if MatchesAll(e) then Compare(FirstRoot(true, e), ChainBits(true, e), true)
                                   else Compare(FirstRoot(false, e.l), ChainBits(false, e.l), false)
  {
    hide Eval, EvalCompare, Chain, IsChain, HasAnd1, ChainBits;
    var all;
    if MatchesAll(e) {
      all := true;
    } else if MatchesAny(e) {
      all := false;
    } else {
      return None;
    }
    var mops := new MaskOps(w, all);
    if all {
      var ok := MatchAndOrChain(e, mops);
      if !ok || !mops.foundAnd1 {
        return None;
      }
      ChainMeans(true, w, e, mops.root.value);
      assert mops.mask == ChainBits(true, e);
      AllFolds(e, w, mops.root.value, mops.mask);
    } else {
      var ok := MatchAndOrChain(e.l, mops);
      if !ok {
        return None;
      }
      ChainMeans(false, w, e.l, mops.root.value);
      assert mops.mask == ChainBits(false, e.l);
      AnyFolds(e, w, mops.root.value, mops.mask);
    }
    return Some(Compare(mops.root.value, mops.mask, all));
  }

  lemma {:induction false} BitsAreMask(r: nat, bits: set<nat>, w: nat)
    requires forall b | b in bits :: b < w
    ensures Bitwise(LAnd, r, MaskValue(bits, w)) == MaskValue(bits, w) <==> ChainBit(true, bits, r)
    ensures Bitwise(LAnd, r, MaskValue(bits, w)) != 0 <==> ChainBit(false, bits, r)
  {
    hide Bitwise;
    MaskedBits(r, bits, 0, w);
    QuotientIsUnique(r, 1, 0);
    assert Quotient(r, Pow2(0)) == r;
  }

  lemma {:induction false} AllFolds(e: Expr, w: nat, root: Expr, mask: set<nat>)
    requires w >= 1 && Chain(true, w, e, root, mask, true) && forall b | b in mask :: b < w
    ensures forall env :: Refines(Eval(e, w, env), EvalCompare(Compare(root, mask, true), w, env))
  {
    hide Eval, ChainBit, Bitwise, MaskValue;
    forall env ensures Refines(Eval(e, w, env), EvalCompare(Compare(root, mask, true), w, env)) {
      assert Tracks(true, mask, true, Eval(e, w, env), Eval(root, w, env));
      var r := Eval(root, w, env);
      if r.Int? { BitsAreMask(r.n, mask, w); }
    }
  }

  lemma {:induction false} AnyFolds(e: Expr, w: nat, root: Expr, mask: set<nat>)
    requires w >= 1 && MatchesAny(e) && Chain(false, w, e.l, root, mask, false) && forall b | b in mask :: b < w
    ensures forall env :: Refines(Eval(e, w, env), EvalCompare(Compare(root, mask, false), w, env))
  {
    hide ChainBit, Bitwise, MaskValue;
    forall env ensures Refines(Eval(e, w, env), EvalCompare(Compare(root, mask, false), w, env)) {
      var x, r := Eval(e.l, w, env), Eval(root, w, env);
      assert Tracks(false, mask, false, x, r);
      if r.Int? { BitsAreMask(r.n, mask, w); }
      if x.Int? { AndOne(x.n); }
    }
  }

  // ----- the chains of the pass's comments are folded -----

  /** How a chain is put together: a bit of the source, two chains joined, or a chain cut by "and 1". */
  datatype Shape =
    | Take(bit: nat, flags: Flags, oneUse: bool)
    | Join(l: Shape, r: Shape, flags: Flags, oneUse: bool)
    | Cut(s: Shape, flags: Flags, oneUse: bool)

  /** The chain of this shape over x; bit 0 may be taken without a shift. */
  function Built(ands: bool, s: Shape, x: Expr): Expr {
    match s
    case Take(b, f, one) => if b == 0 then x else Node(LShr, f, one, x, Num(b))
    case Join(l, r, f, one) => Node(if ands then And else Or, f, one, Built(ands, l, x), Built(ands, r, x))
    case Cut(l, f, one) => Node(And, f, one, Built(ands, l, x), Num(1))
  }

  function BitsOf(s: Shape): set<nat> {
    match s
    case Take(b, _, _) => {b}
    case Join(l, r, _, _) => BitsOf(l) + BitsOf(r)
    case Cut(l, _, _) => BitsOf(l)
  }

  predicate HasCut(s: Shape) {
    match s
    case Take(_, _, _) => false
    case Join(l, r, _, _) => HasCut(l) || HasCut(r)
    case Cut(_, _, _) => true
  }

  lemma {:induction false} BuiltIsChain(ands: bool, s: Shape, id: Id, w: nat)
    requires w >= 1 && (HasCut(s) ==> ands)
    ensures var v := Built(ands, s, Leaf(id));
            FirstRoot(ands, v) == Leaf(id) && ChainBits(ands, v) == BitsOf(s) && (HasAnd1(ands, v) <==> HasCut(s))
            && v != Num(1)
            && (IsChain(ands, w, v, Leaf(id)) <==> forall b | b in BitsOf(s) :: b < w)
  {
    match s
    case Take(_, _, _) =>
    case Join(l, r, _, _) =>
      BuiltIsChain(ands, l, id, w);
      BuiltIsChain(ands, r, id, w);
    case Cut(l, _, _) =>
      BuiltIsChain(ands, l, id, w);
  }

  /** An and-chain, in either order of its operands, is folded exactly when one of them is an and with no
      other use, it is cut somewhere, and it takes its bits below the width. */
  lemma {:induction false} AndChainFolds(s: Shape, t: Shape, f: Flags, one: bool, id: Id, w: nat)
    requires w >= 1
    ensures var e := Built(true, Join(s, t, f, one), Leaf(id));
            (Foldable(e, w) <==>
             ((!s.Take? && s.oneUse) || (!t.Take? && t.oneUse)) && (HasCut(s) || HasCut(t))
             && forall b | b in BitsOf(s) + BitsOf(t) :: b < w)
            && FirstRoot(true, e) == Leaf(id) && ChainBits(true, e) == BitsOf(s) + BitsOf(t)
            && (MatchesAll(e) || !Foldable(e, w))
  {
    BuiltIsChain(true, Join(s, t, f, one), id, w);
    var e := Built(true, Join(s, t, f, one), Leaf(id));
    assert e.l == Built(true, s, Leaf(id)) && e.r == Built(true, t, Leaf(id));
    assert MatchesAll(e) <==> (!s.Take? && s.oneUse) || (!t.Take? && t.oneUse);
    assert !MatchesAny(e);
    assert MatchesAll(e) ==> (Foldable(e, w) <==> IsChain(true, w, e, Leaf(id)) && HasAnd1(true, e));
  }

  /** The same of an and-chain with the cut on top. */
  lemma {:induction false} CutAndChainFolds(s: Shape, f: Flags, one: bool, id: Id, w: nat)
    requires w >= 1
    ensures var e := Built(true, Cut(s, f, one), Leaf(id));
            (Foldable(e, w) <==> !s.Take? && s.oneUse && forall b | b in BitsOf(s) :: b < w)
            && FirstRoot(true, e) == Leaf(id) && ChainBits(true, e) == BitsOf(s) && (MatchesAll(e) || !Foldable(e, w))
  {
    BuiltIsChain(true, Cut(s, f, one), id, w);
    var e := Built(true, Cut(s, f, one), Leaf(id));
    assert e.l == Built(true, s, Leaf(id));
    assert MatchesAll(e) <==> !s.Take? && s.oneUse;
    assert !MatchesAny(e);
    assert MatchesAll(e) ==> (Foldable(e, w) <==> IsChain(true, w, e, Leaf(id)) && HasAnd1(true, e));
  }

  /** An or-chain cut to its lowest bit is folded exactly when it has no other use and takes its bits below
      the width. */
  lemma {:induction false} OrChainFolds(chain: Shape, g: Flags, one: bool, id: Id, w: nat)
    requires w >= 1 && chain.Join? && !HasCut(chain)
    ensures var e := Node(And, g, one, Built(false, chain, Leaf(id)), Num(1));
            (Foldable(e, w) <==> chain.oneUse && forall b | b in BitsOf(chain) :: b < w)
            && !MatchesAll(e) && FirstRoot(false, e.l) == Leaf(id) && ChainBits(false, e.l) == BitsOf(chain)
  {
    BuiltIsChain(false, chain, id, w);
    var e := Node(And, g, one, Built(false, chain, Leaf(id)), Num(1));
    assert !MatchesAll(e) && (MatchesAny(e) <==> chain.oneUse);
  }
}
