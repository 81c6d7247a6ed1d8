/** A funnel shift guarded against a zero amount by a branch, replaced by the intrinsic. */
module FunnelShift {
  import opened Collections
  import opened Bits
  import opened Ir
  import opened Idioms

  datatype Direction = Fshl | Fshr

  /** Shift the double word hi:lo by s mod w and keep its top (fshl) or bottom (fshr) word. */
  function Funnel(dir: Direction, w: nat, hi: nat, lo: nat, s: nat): nat
    requires w >= 1
  {
    var both, k := hi * Pow2(w) + lo, s % w;
    if dir.Fshl? then Quotient(both * Pow2(k), Pow2(w)) % Pow2(w)
    else Quotient(both, Pow2(k)) % Pow2(w)
  }

  function EvalFunnel(dir: Direction, w: nat, hi: Val, lo: Val, s: Val): Val
    requires w >= 1
  {
    if hi.UB? || lo.UB? || s.UB? then UB
    else if hi.Poison? || lo.Poison? || s.Poison? then Poison
    else Int(Funnel(dir, w, hi.n, lo.n, s.n))
  }

  function Freeze(v: Val, choice: nat): Val { if v.Poison? then Int(choice) else v }

  // ----- arithmetic -----

  /** The two halves of a funnel shift do not overlap. */
  lemma {:induction false} OrDisjoint(k: nat, q: nat, low: nat)
    requires low < Pow2(k)
    ensures Bitwise(LOr, q * Pow2(k), low) == q * Pow2(k) + low
  {
    hide Bitwise;
    if k == 0 {
      OrZero(q);
    } else {
      var h := q * Pow2(k - 1);
      assert q * Pow2(k) == 2 * h;
      LowDigit(0, h);
      BitwiseStep(LOr, 2 * h, low);
      OrDisjoint(k - 1, q, low / 2);
    }
  }

  lemma {:induction false} OrZero(x: nat)
    ensures Bitwise(LOr, x, 0) == x
  {
    if x > 0 {
      BitwiseStep(LOr, x, 0);
      OrZero(x / 2);
    }
  }

  lemma {:induction false} OrCommutes(x: nat, y: nat)
    ensures Bitwise(LOr, x, y) == Bitwise(LOr, y, x)
    decreases x + y
  {
    if x + y > 0 {
      BitwiseStep(LOr, x, y);
      BitwiseStep(LOr, y, x);
      OrCommutes(x / 2, y / 2);
    }
  }

  /** What is left of hi after a shift by s keeps its low digits, moved up. */
  lemma ShlHalf(hi: nat, ps: nat, pr: nat)
    requires ps > 0 && pr > 0
    ensures ps * pr > 0 && (hi * ps) % (ps * pr) == (hi % pr) * ps
  {
    var h0, h1 := hi / pr, hi % pr;
    assert hi == h0 * pr + h1;
    Halves(h0, h1, pr, ps);
    MulMonotone(h1 + 1, pr, ps);
    assert (h1 + 1) * ps == h1 * ps + ps && pr * ps == ps * pr;
    QuotientIsUnique(h0, ps * pr, h1 * ps);
  }

  lemma Regroup(hi: nat, l0: nat, l1: nat, ps: nat, pr: nat)
    ensures (hi * (ps * pr) + (l0 * pr + l1)) * ps == (hi * ps + l0) * (ps * pr) + l1 * ps
  {
    var word := ps * pr;
    Halves(l0, l1, pr, ps);
    assert (hi * word) * ps == (hi * ps) * word;
    assert (hi * ps + l0) * word == (hi * ps) * word + l0 * word;
  }

  lemma TopWord(hi: nat, lo: nat, ps: nat, pr: nat)
    requires ps > 0 && pr > 0 && lo < ps * pr
    ensures 0 <= lo / pr < ps && ((hi * (ps * pr) + lo) * ps) / (ps * pr) == hi * ps + lo / pr
  {
    QuotientInWord(lo, pr, ps);
    var l0, l1 := lo / pr, lo % pr;
    assert lo == l0 * pr + l1;
    Regroup(hi, l0, l1, ps, pr);
    Remainder(l1, ps, pr);
    QuotientIsUnique(hi * ps + l0, ps * pr, l1 * ps);
  }

  lemma Remainder(l: nat, ps: nat, pr: nat)
    requires l < pr && ps > 0
    ensures l * ps < ps * pr
  {
    MulMonotone(l + 1, pr, ps);
    assert (l + 1) * ps == l * ps + ps && pr * ps == ps * pr;
  }

  lemma LowWord(hi: nat, l0: nat, ps: nat, pr: nat)
    requires ps > 0 && pr > 0 && l0 < ps
    ensures ps * pr > 0 && (hi * ps + l0) % (ps * pr) == (hi % pr) * ps + l0
  {
    var h0, h1 := hi / pr, hi % pr;
    assert hi == h0 * pr + h1;
    Halves(h0, h1, pr, ps);
    MulMonotone(h1 + 1, pr, ps);
    assert (h1 + 1) * ps == h1 * ps + ps && pr * ps == ps * pr;
    QuotientIsUnique(h0, ps * pr, h1 * ps + l0);
  }

  /** (hi << s) | (lo >> (w - s)) is the top word of hi:lo shifted left. */
  lemma {:induction false} LeftHalves(w: nat, hi: nat, lo: nat, s: nat)
    requires 0 < s < w && hi < Pow2(w) && lo < Pow2(w)
    ensures Bitwise(LOr, (hi * Pow2(s)) % Pow2(w), Quotient(lo, Pow2(w - s))) == Funnel(Fshl, w, hi, lo, s)
  {
    hide Bitwise, Pow2;
    var ps, pr := Pow2(s), Pow2(w - s);
    Pow2Add(s, w - s);
    ShlHalf(hi, ps, pr);
    TopWord(hi, lo, ps, pr);
    LowWord(hi, lo / pr, ps, pr);
    OrDisjoint(s, hi % pr, lo / pr);
    SmallRemainder(s, w);
  }

  lemma SmallRemainder(s: nat, w: nat)
    requires s < w
    ensures s % w == s
  {
    QuotientIsUnique(0, w, s);
  }

  lemma Halves(h0: nat, h1: nat, pr: nat, ps: nat)
    ensures (h0 * pr + h1) * ps == h0 * (ps * pr) + h1 * ps
  {
    assert (h0 * pr) * ps == h0 * (ps * pr);
  }

  lemma QuotientInWord(lo: nat, pr: nat, ps: nat)
    requires pr > 0 && lo < ps * pr
    ensures 0 <= lo / pr < ps
  {
    QuotientBounds(lo, pr);
    var q := lo / pr;
    assert lo == q * pr + lo % pr;
    if q >= ps {
      MulMonotone(ps, q, pr);
      assert false;
    }
  }

  /** (hi << (w - s)) | (lo >> s) is the bottom word of hi:lo shifted right. */
  lemma {:induction false} RightHalves(w: nat, hi: nat, lo: nat, s: nat)
    requires 0 < s < w && hi < Pow2(w) && lo < Pow2(w)
    ensures Bitwise(LOr, (hi * Pow2(w - s)) % Pow2(w), Quotient(lo, Pow2(s))) == Funnel(Fshr, w, hi, lo, s)
  {
    LeftHalves(w, hi, lo, w - s);
    LeftIsRight(w, hi, lo, s);
  }

  /** Shifting left by w - s and keeping the top is shifting right by s and keeping the bottom. */
  lemma LeftIsRight(w: nat, hi: nat, lo: nat, s: nat)
    requires 0 < s < w
    ensures Funnel(Fshl, w, hi, lo, w - s) == Funnel(Fshr, w, hi, lo, s)
  {
    hide Pow2;
    var both, ps, pl := hi * Pow2(w) + lo, Pow2(s), Pow2(w - s);
    Pow2Add(s, w - s);
    ShiftBack(both, ps, pl);
    SmallRemainder(s, w);
    SmallRemainder(w - s, w);
  }

  lemma ShiftBack(both: nat, ps: nat, pl: nat)
    requires ps > 0 && pl > 0
    ensures ps * pl > 0 && (both * pl) / (ps * pl) == both / ps
  {
    var q, r := both / ps, both % ps;
    assert both == q * ps + r;
    Halves(q, r, ps, pl);
    assert pl * ps == ps * pl;
    Remainder(r, pl, ps);
    QuotientIsUnique(q, ps * pl, r * pl);
  }

  /** By zero, fshl is its first operand and fshr its second. */
  lemma {:induction false} FunnelByZero(w: nat, hi: nat, lo: nat)
    requires w >= 1 && hi < Pow2(w) && lo < Pow2(w)
    ensures Funnel(Fshl, w, hi, lo, 0) == hi && Funnel(Fshr, w, hi, lo, 0) == lo
  {
    QuotientIsUnique(hi, Pow2(w), lo);
    QuotientIsUnique(0, Pow2(w), hi);
    QuotientIsUnique(hi * Pow2(w) + lo, 1, 0);
    SmallRemainder(0, w);
  }

  // ----- matching -----

  datatype Match = Match(dir: Direction, val0: Expr, val1: Expr, amount: Expr)

  /** shl(a, s) and lshr(b, width - s), in this order. */
  function MatchLeft(a: Expr, b: Expr, w: nat): Option<Match> {
    if IsNode(a, Shl) && IsNode(b, LShr) && IsNode(b.r, Sub) && b.r.l == Num(w) && b.r.r == a.r
    then Some(Match(Fshl, a.l, b.l, a.r)) else None
  }

  /** shl(a, width - s) and lshr(b, s), in this order. */
  function MatchRight(a: Expr, b: Expr, w: nat): Option<Match> {
    if IsNode(a, Shl) && IsNode(a.r, Sub) && a.r.l == Num(w) && IsNode(b, LShr) && a.r.r == b.r
    then Some(Match(Fshr, a.l, b.l, b.r)) else None
  }

  function MatchFunnelShift(v: Expr, w: nat): Option<Match> {
    if !(IsNode(v, Or) && v.oneUse) then None
    else if MatchLeft(v.l, v.r, w).Some? then MatchLeft(v.l, v.r, w)
    else if MatchLeft(v.r, v.l, w).Some? then MatchLeft(v.r, v.l, w)
    else if MatchRight(v.l, v.r, w).Some? then MatchRight(v.l, v.r, w)
    else MatchRight(v.r, v.l, w)
  }

  /** The operand the funnel shift returns when the amount is zero. */
  function Source(m: Match): Expr { if m.dir.Fshl? then m.val0 else m.val1 }

  type Block = nat

  datatype Predicate = Eq | Ne | OtherPredicate
  datatype Terminator = CondBr(pred: Predicate, lhs: Expr, rhs: Expr, ifTrue: Block, ifFalse: Block) | OtherTerminator

  datatype Incoming = Incoming(value: Expr, block: Block, term: Terminator)

  /** A phi with two incoming values, in block `at`. */
  datatype Phi = Phi(width: nat, at: Block, in0: Incoming, in1: Incoming)

  predicate IsPowerOf2(w: nat) { w >= 1 && (w == 1 || (w % 2 == 0 && IsPowerOf2(w / 2))) }

  datatype Guarded = Guarded(m: Match, funnel: Incoming, guard: Incoming)

  /** One incoming value is a funnel shift and the other is its source. */
  function MatchPhi(phi: Phi): Option<Guarded> {
    var m0, m1 := MatchFunnelShift(phi.in0.value, phi.width), MatchFunnelShift(phi.in1.value, phi.width);
    if m0.Some? && Source(m0.value) == phi.in1.value then Some(Guarded(m0.value, phi.in0, phi.in1))
    else if m1.Some? && Source(m1.value) == phi.in0.value then Some(Guarded(m1.value, phi.in1, phi.in0))
    else None
  }

  /** The intrinsic call; one operand may have to be frozen. */
  datatype Call = Call(dir: Direction, hi: Expr, lo: Expr, amount: Expr, freezeHi: bool, freezeLo: bool)

  function EvalCall(c: Call, w: nat, env: Valuation, choice: nat): Val
    requires w >= 1
  {
    var hi, lo := Eval(c.hi, w, env), Eval(c.lo, w, env);
    EvalFunnel(c.dir, w,
               if c.freezeHi then Freeze(hi, choice) else hi,
               if c.freezeLo then Freeze(lo, choice) else lo,
               Eval(c.amount, w, env))
  }

  /** `dominates` says a value is available at a block's end, `notPoison` that it never is poison. */
  function FoldGuardedFunnelShift(phi: Phi, dominates: (Expr, Block) -> bool, notPoison: Expr -> bool): Option<Call> {
    if !IsPowerOf2(phi.width) then None else
    var g := MatchPhi(phi);
    if g.None? then None else
    var Guarded(m, funnel, guard) := g.value;
    if !dominates(m.val0, guard.block) || !dominates(m.val1, guard.block) then None
    else if guard.term.CondBr? && guard.term.lhs == m.amount && guard.term.rhs == Num(0)
            && guard.term.ifTrue == phi.at && guard.term.ifFalse == funnel.block && guard.term.pred == Eq
    then
      var freeze := m.val0 != m.val1;
      Some(Call(m.dir, m.val0, m.val1, m.amount,
                freeze && m.dir.Fshr? && !notPoison(m.val0), freeze && m.dir.Fshl? && !notPoison(m.val1)))
    else None
  }

  /** The guarded shift of the pass's comments: the or in the funnel block, its halves in either
      order, the untouched source past the guard. */
  function GuardedShift(dir: Direction, w: nat, hi: Expr, lo: Expr, s: Expr, swapHalves: bool, look: Look): Expr {
    var rest := Dressed(look, 1, Sub, Num(w), s);
    var a := Dressed(look, 2, Shl, hi, if dir.Fshl? then s else rest);
    var b := Dressed(look, 3, LShr, lo, if dir.Fshl? then rest else s);
    if swapHalves then Node(Or, look(0).0, true, b, a) else Node(Or, look(0).0, true, a, b)
  }

  function Depth(e: Expr): nat {
    if e.Node? then 1 + Depth(e.l) + Depth(e.r) else 0
  }

  lemma {:induction false} NotItsOwnPart(s: Expr)
    ensures !(s.Node? && s.r.Node? && s.r.r == s)
  {
    assert s.Node? && s.r.Node? ==> Depth(s.r.r) < Depth(s);
  }

  /** The source of a matched funnel shift is a smaller tree. */
  lemma {:induction false} SourceIsPart(v: Expr, w: nat)
    requires MatchFunnelShift(v, w).Some?
    ensures Depth(Source(MatchFunnelShift(v, w).value)) < Depth(v)
  {
  }

  lemma {:induction false} PartOfShift(dir: Direction, w: nat, hi: Expr, lo: Expr, s: Expr, swapHalves: bool,
                                       look: Look)
    ensures Depth(hi) < Depth(GuardedShift(dir, w, hi, lo, s, swapHalves, look))
    ensures Depth(lo) < Depth(GuardedShift(dir, w, hi, lo, s, swapHalves, look))
  {
  }

  lemma {:induction false} Pow2IsPower(k: nat)
    ensures IsPowerOf2(Pow2(k))
  {
    if k > 0 {
      Pow2IsPower(k - 1);
      assert Pow2(k) / 2 == Pow2(k - 1);
    }
  }

  lemma {:induction false} PowerHasExponent(w: nat) returns (k: nat)
    requires IsPowerOf2(w)
    ensures w == Pow2(k)
  {
    if w == 1 {
      k := 0;
    } else {
      k := PowerHasExponent(w / 2);
      k := k + 1;
    }
  }

  lemma {:induction false} PowerOf2Iff(w: nat)
    ensures IsPowerOf2(w) <==> exists k: nat :: w == Pow2(k)
  {
    if IsPowerOf2(w) { var k := PowerHasExponent(w); }
    if k: nat :| w == Pow2(k) { Pow2IsPower(k); }
  }

  /** At widths that are powers of two it is folded in both positions of the phi's operands, freezing the
      operand the guard hid unless that is the source itself or never poison. */
  lemma GuardedShiftFolds(dir: Direction, hi: Expr, lo: Expr, s: Expr, swapHalves: bool, look: Look, phi: Phi,
                          funnel: Incoming, guard: Incoming, dominates: (Expr, Block) -> bool, notPoison: Expr -> bool)
    requires (phi.in0 == funnel && phi.in1 == guard) || (phi.in0 == guard && phi.in1 == funnel)
    requires funnel.value == GuardedShift(dir, phi.width, hi, lo, s, swapHalves, look)
             && guard.value == (if dir.Fshl? then hi else lo)
    requires guard.term == CondBr(Eq, s, Num(0), phi.at, funnel.block)
    ensures FoldGuardedFunnelShift(phi, dominates, notPoison) ==
            if (exists k: nat :: phi.width == Pow2(k)) && dominates(hi, guard.block) && dominates(lo, guard.block)
            then Some(Call(dir, hi, lo, s,
                           hi != lo && dir.Fshr? && !notPoison(hi),
                           hi != lo && dir.Fshl? && !notPoison(lo)))
            else None
  {
    var w := phi.width;
    var v := funnel.value;
    PowerOf2Iff(w);
    NotItsOwnPart(s);
    assert MatchFunnelShift(v, w) == Some(Match(dir, hi, lo, s));
    if MatchFunnelShift(guard.value, w).Some? { SourceIsPart(guard.value, w); }
    PartOfShift(dir, w, hi, lo, s, swapHalves, look);
    assert MatchPhi(phi) == Some(Guarded(Match(dir, hi, lo, s), funnel, guard));
  }

  lemma MatchedIsShift(v: Expr, w: nat) returns (swapHalves: bool, look: Look)
    requires MatchFunnelShift(v, w).Some?
    ensures var m := MatchFunnelShift(v, w).value;
            v == GuardedShift(m.dir, w, m.val0, m.val1, m.amount, swapHalves, look)
  {
    var m := MatchFunnelShift(v, w).value;
    swapHalves := !(IsNode(v.l, Shl));
    var a, b := if swapHalves then v.r else v.l, if swapHalves then v.l else v.r;
    var rest := if m.dir.Fshl? then b.r else a.r;
    var nodes := [v, rest, a, b];
    look := (x: nat) => if x < |nodes| && nodes[x].Node? then (nodes[x].flags, nodes[x].oneUse) else (NO_FLAGS, true);
    assert Dressed(look, 1, Sub, Num(w), m.amount) == rest;
  }

  /** Nothing but guarded shifts is folded. */
  lemma FoldedIsGuarded(phi: Phi, dominates: (Expr, Block) -> bool, notPoison: Expr -> bool)
    returns (dir: Direction, hi: Expr, lo: Expr, s: Expr, swapHalves: bool, look: Look, funnel: Incoming,
             guard: Incoming)
    requires FoldGuardedFunnelShift(phi, dominates, notPoison).Some?
    ensures (phi.in0 == funnel && phi.in1 == guard) || (phi.in0 == guard && phi.in1 == funnel)
    ensures funnel.value == GuardedShift(dir, phi.width, hi, lo, s, swapHalves, look)
    ensures guard.value == (if dir.Fshl? then hi else lo)
    ensures guard.term == CondBr(Eq, s, Num(0), phi.at, funnel.block)
  {
    var g := MatchPhi(phi).value;
    dir, hi, lo, s, funnel, guard := g.m.dir, g.m.val0, g.m.val1, g.m.amount, g.funnel, g.guard;
    swapHalves, look := MatchedIsShift(funnel.value, phi.width);
  }

  // ----- refinement -----

  /** Control leaves a block whose terminator is this for block `to`. */
  ghost predicate Takes(t: Terminator, to: Block, w: nat, env: Valuation)
    requires w >= 1
  {
    t.CondBr? ==>
      var x, y := Eval(t.lhs, w, env), Eval(t.rhs, w, env);
      x.Int? && y.Int?
      && match t.pred
         case Eq => to == if x.n == y.n then t.ifTrue else t.ifFalse
         case Ne => to == if x.n != y.n then t.ifTrue else t.ifFalse
         case OtherPredicate => to == t.ifTrue || to == t.ifFalse
  }

  /** The or of the two halves of a shifted double word, in both orders. */
  lemma {:induction false} OrOfHalves(dir: Direction, w: nat, a: nat, b: nat, s: nat)
    requires w >= 1 && 0 < s < w && a < Pow2(w) && b < Pow2(w)
    ensures var left := (a * Pow2(if dir.Fshl? then s else w - s)) % Pow2(w);
            var right := Quotient(b, Pow2(if dir.Fshl? then w - s else s));
            Bitwise(LOr, left, right) == Funnel(dir, w, a, b, s) && Bitwise(LOr, right, left) == Funnel(dir, w, a, b, s)
  {
    hide Bitwise, Quotient, Pow2, Funnel;
    LeftHalves(w, a, b, s);
    RightHalves(w, a, b, s);
    OrCommutes((a * Pow2(s)) % Pow2(w), Quotient(b, Pow2(w - s)));
    OrCommutes((a * Pow2(w - s)) % Pow2(w), Quotient(b, Pow2(s)));
  }

  /** The complement of the amount: an amount itself, or the width, which shifts everything out. */
  lemma {:induction false} Complement(w: nat, f: Flags, s: nat)
    requires w >= 1 && s < Pow2(w)
    ensures s == 0 ==> EvalBin(Sub, f, w, Int(w), Int(s)) == Int(w)
    ensures 0 < s <= w && EvalBin(Sub, f, w, Int(w), Int(s)).Int? ==> EvalBin(Sub, f, w, Int(w), Int(s)) == Int(w - s)
    ensures !EvalBin(Sub, f, w, Int(w), Int(s)).UB?
  {
    BelowPow2(w);
    if s <= w { QuotientIsUnique(0, Pow2(w), w - s); }
  }

  /** The or of the two shifts, whatever order they come in. */
  lemma ShiftedOr(w: nat, f0: Flags, f1: Flags, f2: Flags, f3: Flags, a: Val, b: Val, s: Val, dir: Direction)
    requires w >= 1 && InRange(a, w) && InRange(b, w) && InRange(s, w)
    ensures var sub := EvalBin(Sub, f0, w, Int(w), s);
            var left := EvalBin(Shl, f1, w, a, if dir.Fshl? then s else sub);
            var right := EvalBin(LShr, f2, w, b, if dir.Fshl? then sub else s);
            Refines(EvalBin(Or, f3, w, left, right), EvalFunnel(dir, w, a, b, s))
            && Refines(EvalBin(Or, f3, w, right, left), EvalFunnel(dir, w, a, b, s))
  {
    hide Bitwise, Violates, Funnel, Quotient, Pow2;
    if a.Int? && b.Int? && s.Int? {
      Complement(w, f0, s.n);
      if 0 < s.n < w { OrOfHalves(dir, w, a.n, b.n, s.n); }
    }
  }

  lemma LeftParts(a: Expr, b: Expr, w: nat)
    requires MatchLeft(a, b, w).Some?
    ensures var m := MatchLeft(a, b, w).value;
            m.dir == Fshl && a.Node? && b.Node? && b.r.Node? && a == Node(Shl, a.flags, a.oneUse, m.val0, m.amount)
            && b == Node(LShr, b.flags, b.oneUse, m.val1, Node(Sub, b.r.flags, b.r.oneUse, Num(w), m.amount))
  {
  }

  lemma RightParts(a: Expr, b: Expr, w: nat)
    requires MatchRight(a, b, w).Some?
    ensures var m := MatchRight(a, b, w).value;
            m.dir == Fshr && a.Node? && b.Node? && a.r.Node? && b == Node(LShr, b.flags, b.oneUse, m.val1, m.amount)
            && a == Node(Shl, a.flags, a.oneUse, m.val0, Node(Sub, a.r.flags, a.r.oneUse, Num(w), m.amount))
  {
  }

  /** On its own path, the matched expression is refined by the funnel shift, whatever the amount. */
  lemma {:induction false} FunnelPathRefines(v: Expr, w: nat, env: Valuation)
    requires w >= 1 && ExprOk(v, w) && MatchFunnelShift(v, w).Some?
    ensures var m := MatchFunnelShift(v, w).value;
            ExprOk(m.val0, w) && ExprOk(m.val1, w)
            && Refines(Eval(v, w, env),
                       EvalFunnel(m.dir, w, Eval(m.val0, w, env), Eval(m.val1, w, env), Eval(m.amount, w, env)))
  {
    hide EvalBin, EvalFunnel, MatchLeft, MatchRight;
    var m := MatchFunnelShift(v, w).value;
    var swapped := if MatchLeft(v.l, v.r, w).Some? then false
                   else if MatchLeft(v.r, v.l, w).Some? then true
                   else MatchRight(v.l, v.r, w).None?;
    var a, b := if swapped then v.r else v.l, if swapped then v.l else v.r;
    if m.dir.Fshl? && MatchLeft(a, b, w).Some? {
      LeftParts(a, b, w);
    } else {
      DirectionOf(v.l, v.r, w);
      DirectionOf(v.r, v.l, w);
      RightParts(a, b, w);
    }
    var sub := if m.dir.Fshl? then b.r else a.r;
    EvalInRange(m.val0, w, env);
    EvalInRange(m.val1, w, env);
    EvalInRange(m.amount, w, env);
    ShiftedOr(w, sub.flags, a.flags, b.flags, v.flags, Eval(m.val0, w, env), Eval(m.val1, w, env),
              Eval(m.amount, w, env), m.dir);
    assert Eval(sub, w, env) == EvalBin(Sub, sub.flags, w, Int(w), Eval(m.amount, w, env));
  }

  lemma DirectionOf(a: Expr, b: Expr, w: nat)
    ensures MatchLeft(a, b, w).Some? ==> MatchLeft(a, b, w).value.dir == Fshl
    ensures MatchRight(a, b, w).Some? ==> MatchRight(a, b, w).value.dir == Fshr
  {
  }

  /** Past the guard the amount is zero, and the unselected operand, even poison, does not matter. */
  lemma GuardPathRefines(dir: Direction, w: nat, hi: Val, lo: Val)
    requires w >= 1 && InRange(hi, w) && InRange(lo, w) && !hi.UB? && !lo.UB?
    requires if dir.Fshl? then !lo.Poison? || hi == lo else !hi.Poison? || hi == lo
    ensures Refines(if dir.Fshl? then hi else lo, EvalFunnel(dir, w, hi, lo, Int(0)))
  {
    if hi.Int? && lo.Int? { FunnelByZero(w, hi.n, lo.n); }
  }

  /** Replacing the phi by the call refines it on both incoming edges, for every operand and amount
      and however the frozen operand turns out. (Were the funnel block the phi's own, the guard's two
      edges would both enter the phi, which has one entry for each edge and would have three.) */
  lemma {:induction false} FoldRefines(phi: Phi, dominates: (Expr, Block) -> bool, notPoison: Expr -> bool,
                                       env: Valuation, choice: nat, incoming: Incoming)
    requires FoldGuardedFunnelShift(phi, dominates, notPoison).Some?
    requires ExprOk(phi.in0.value, phi.width) && ExprOk(phi.in1.value, phi.width) && choice < Pow2(phi.width)
    requires MatchPhi(phi).value.funnel.block != phi.at
    requires forall e :: notPoison(e) ==> !Eval(e, phi.width, env).Poison?
    requires incoming == phi.in0 || incoming == phi.in1
    requires Takes(incoming.term, phi.at, phi.width, env)
    requires var c := FoldGuardedFunnelShift(phi, dominates, notPoison).value;
             !Eval(c.hi, phi.width, env).UB? && !Eval(c.lo, phi.width, env).UB?
    ensures Refines(Eval(incoming.value, phi.width, env),
                    EvalCall(FoldGuardedFunnelShift(phi, dominates, notPoison).value, phi.width, env, choice))
  {
    hide EvalFunnel, Eval, MatchFunnelShift, ExprOk;
    var w := phi.width;
    var c := FoldGuardedFunnelShift(phi, dominates, notPoison).value;
    var Guarded(m, funnel, guard) := MatchPhi(phi).value;
    var hi, lo, s := Eval(m.val0, w, env), Eval(m.val1, w, env), Eval(m.amount, w, env);
    FunnelPathRefines(funnel.value, w, env);
    EvalInRange(m.val0, w, env);
    EvalInRange(m.val1, w, env);
    var hi', lo' := if c.freezeHi then Freeze(hi, choice) else hi, if c.freezeLo then Freeze(lo, choice) else lo;
    if incoming == funnel {
      FreezeRefines(m.dir, w, hi, lo, s, hi', lo');
    } else {
      NumEval(0, w, env);
      assert s == Int(0);
      GuardPathRefines(m.dir, w, hi', lo');
      assert Eval(incoming.value, w, env) == if m.dir.Fshl? then hi else lo;
    }
  }

  lemma {:induction false} NumEval(n: nat, w: nat, env: Valuation)
    requires w >= 1
    ensures Eval(Num(n), w, env) == Int(n)
  {
  }

  lemma FreezeRefines(dir: Direction, w: nat, hi: Val, lo: Val, s: Val, hi': Val, lo': Val)
    requires w >= 1 && Refines(hi, hi') && Refines(lo, lo')
    ensures Refines(EvalFunnel(dir, w, hi, lo, s), EvalFunnel(dir, w, hi', lo', s))
  {
  }
}
