/** Expression trees over one width, and recognising the population count among them. */
module Idioms {
  import opened Collections
  import opened Bits
  import opened Ir
  import opened PopCount

  /** Instructions the matchers look into; anything else is a leaf. */
  datatype Expr =
    | Leaf(id: Id)
    | Num(n: nat)
    | Node(op: BinOp, flags: Flags, oneUse: bool, l: Expr, r: Expr)

  predicate ExprOk(e: Expr, w: nat) {
    match e
    case Leaf(_) => true
    case Num(n) => n < Pow2(w)
    case Node(_, _, _, l, r) => ExprOk(l, w) && ExprOk(r, w)
  }

  function Eval(e: Expr, w: nat, env: Valuation): Val
    requires w >= 1
  {
    match e
    case Leaf(id) => Input(env, id, w)
    case Num(n) => Int(n)
    case Node(op, f, _, l, r) => EvalBin(op, f, w, Eval(l, w, env), Eval(r, w, env))
  }

  lemma {:induction false} EvalInRange(e: Expr, w: nat, env: Valuation)
    requires w >= 1 && ExprOk(e, w)
    ensures InRange(Eval(e, w, env), w)
  {
    if e.Node? {
      EvalInRange(e.l, w, env);
      EvalInRange(e.r, w, env);
      var x, y := Eval(e.l, w, env), Eval(e.r, w, env);
      if EvalBin(e.op, e.flags, w, x, y).Int? { RawInRange(e.op, w, x.n, y.n); }
    }
  }

  /** `ev` is f of `rv` unless a flag made it poison; it is undefined just when `rv` is. */
  predicate Computes(ev: Val, rv: Val, f: nat -> nat) {
    match rv
    case UB => ev.UB?
    case Poison => ev.Poison?
    case Int(x) => ev.Poison? || ev == Int(f(x))
  }

  // ----- matching -----

  predicate IsNum(e: Expr, n: nat) { e == Num(n) }

  predicate IsNode(e: Expr, op: BinOp) { e.Node? && e.op == op }

  /** i - ((i >> 1) & 0x55..) */
  function MatchPairs(e: Expr, n: nat): Option<Expr> {
    if IsNode(e, Sub) && IsNode(e.r, And) && IsNum(e.r.r, Splat(n, 0x55))
       && IsNode(e.r.l, LShr) && e.r.l.l == e.l && IsNum(e.r.l.r, 1)
    then Some(e.l) else None
  }

  /** (i & 0x33..) and ((i >> 2) & 0x33..), in this order. */
  function MatchNibbleParts(a: Expr, b: Expr, n: nat): Option<Expr> {
    if IsNode(a, And) && IsNum(a.r, Splat(n, 0x33)) && IsNode(b, And) && IsNum(b.r, Splat(n, 0x33))
       && IsNode(b.l, LShr) && b.l.l == a.l && IsNum(b.l.r, 2)
    then Some(a.l) else None
  }

  /** Their sum, in either order. */
  function MatchNibbles(e: Expr, n: nat): Option<Expr> {
    if !IsNode(e, Add) then None
    else if MatchNibbleParts(e.l, e.r, n).Some? then MatchNibbleParts(e.l, e.r, n)
    else MatchNibbleParts(e.r, e.l, n)
  }

  function MatchByteParts(a: Expr, b: Expr): Option<Expr> {
    if IsNode(a, LShr) && IsNum(a.r, 4) && a.l == b then Some(b) else None
  }

  /** (i + (i >> 4)) & 0x0F.. */
  function MatchBytes(e: Expr, n: nat): Option<Expr> {
    if !(IsNode(e, And) && IsNum(e.r, Splat(n, 0x0F)) && IsNode(e.l, Add)) then None
    else if MatchByteParts(e.l.l, e.l.r).Some? then MatchByteParts(e.l.l, e.l.r)
    else MatchByteParts(e.l.r, e.l.l)
  }

  /** (i * 0x0101..) >> (len - 8) */
  function MatchTop(e: Expr, n: nat): Option<Expr>
    requires n >= 1
  {
    if IsNode(e, LShr) && IsNum(e.r, 8 * n - 8) && IsNode(e.l, Mul) && IsNum(e.l.r, Splat(n, 0x01))
    then Some(e.l.l) else None
  }

  /** The operand whose bits the expression counts, if it has the shape of the idiom. */
  function TryToRecognizePopCount(e: Expr, len: nat): Option<Expr> {
    if !(8 < len <= 128 && len % 8 == 0) then None
    else
      var n := len / 8;
      var mulOp0 := MatchTop(e, n);
      if mulOp0.None? then None else
      var shiftOp0 := MatchBytes(mulOp0.value, n);
      if shiftOp0.None? then None else
      var andOp0 := MatchNibbles(shiftOp0.value, n);
      if andOp0.None? then None else
      MatchPairs(andOp0.value, n)
  }

  /** What recognition does not depend on: each instruction's flags, and whether it has a single use. */
  type Look = nat -> (Flags, bool)

  function Dressed(look: Look, i: nat, op: BinOp, l: Expr, r: Expr): Expr { Node(op, look(i).0, look(i).1, l, r) }

  function PairsIdiom(root: Expr, n: nat, look: Look): Expr {
    Dressed(look, 0, Sub, root,
            Dressed(look, 1, And, Dressed(look, 2, LShr, root, Num(1)), Num(Splat(n, 0x55))))
  }

  function NibblesIdiom(i: Expr, n: nat, swap: bool, look: Look): Expr {
    var low := Dressed(look, 3, And, i, Num(Splat(n, 0x33)));
    var high := Dressed(look, 4, And, Dressed(look, 5, LShr, i, Num(2)), Num(Splat(n, 0x33)));
    if swap then Dressed(look, 6, Add, high, low) else Dressed(look, 6, Add, low, high)
  }

  function BytesIdiom(j: Expr, n: nat, swap: bool, look: Look): Expr {
    var shifted := Dressed(look, 7, LShr, j, Num(4));
    Dressed(look, 9, And, if swap then Dressed(look, 8, Add, shifted, j) else Dressed(look, 8, Add, j, shifted),
            Num(Splat(n, 0x0F)))
  }

  /** The idiom over n bytes, with the operands of its two sums in either order. */
  function PopCountIdiom(root: Expr, n: nat, swapNibbles: bool, swapBytes: bool, look: Look): Expr
    requires n >= 1
  {
    var k := BytesIdiom(NibblesIdiom(PairsIdiom(root, n, look), n, swapNibbles, look), n, swapBytes, look);
    Dressed(look, 11, LShr, Dressed(look, 10, Mul, k, Num(Splat(n, 0x01))), Num(8 * n - 8))
  }

  lemma PairsRecognised(root: Expr, n: nat, look: Look)
    ensures MatchPairs(PairsIdiom(root, n, look), n) == Some(root) && IsNode(PairsIdiom(root, n, look), Sub)
  {
    hide Splat;
  }

  lemma NibblesRecognised(i: Expr, n: nat, swap: bool, look: Look)
    requires IsNode(i, Sub)
    ensures MatchNibbles(NibblesIdiom(i, n, swap, look), n) == Some(i) && IsNode(NibblesIdiom(i, n, swap, look), Add)
  {
    hide Splat;
  }

  lemma BytesRecognised(j: Expr, n: nat, swap: bool, look: Look)
    requires IsNode(j, Add)
    ensures MatchBytes(BytesIdiom(j, n, swap, look), n) == Some(j)
  {
    hide Splat;
  }

  /** At every width the guard accepts, the idiom is recognised, and at no other. */
  lemma IdiomIsRecognised(root: Expr, n: nat, len: nat, swapNibbles: bool, swapBytes: bool, look: Look)
    requires n >= 1 && len / 8 == n
    ensures TryToRecognizePopCount(PopCountIdiom(root, n, swapNibbles, swapBytes, look), len) ==
            if 8 < len <= 128 && len % 8 == 0 then Some(root) else None
  {
    hide Splat, PairsIdiom, NibblesIdiom, BytesIdiom, MatchPairs, MatchNibbles, MatchBytes;
    PairsRecognised(root, n, look);
    NibblesRecognised(PairsIdiom(root, n, look), n, swapNibbles, look);
    BytesRecognised(NibblesIdiom(PairsIdiom(root, n, look), n, swapNibbles, look), n, swapBytes, look);
  }

  /** How an instruction looks. */
  function LookOf(e: Expr): (Flags, bool) { if e.Node? then (e.flags, e.oneUse) else (NO_FLAGS, true) }

  lemma PairsAre(i: Expr, n: nat, look: Look)
    requires MatchPairs(i, n).Some?
    requires look(0) == LookOf(i) && look(1) == LookOf(i.r) && look(2) == LookOf(i.r.l)
    ensures PairsIdiom(MatchPairs(i, n).value, n, look) == i
  {
    hide Splat;
  }

  lemma NibblesAre(j: Expr, n: nat, look: Look) returns (swap: bool)
    requires MatchNibbles(j, n).Some?
    requires var swapped := MatchNibbleParts(j.l, j.r, n).None?;
             var low, high := if swapped then j.r else j.l, if swapped then j.l else j.r;
             look(3) == LookOf(low) && look(4) == LookOf(high) && high.Node? && look(5) == LookOf(high.l)
             && look(6) == LookOf(j)
    ensures NibblesIdiom(MatchNibbles(j, n).value, n, swap, look) == j
  {
    hide Splat;
    swap := MatchNibbleParts(j.l, j.r, n).None?;
  }

  lemma BytesAre(k: Expr, n: nat, look: Look) returns (swap: bool)
    requires MatchBytes(k, n).Some?
    requires var swapped := MatchByteParts(k.l.l, k.l.r).Some?;
             look(7) == LookOf(if swapped then k.l.l else k.l.r) && look(8) == LookOf(k.l) && look(9) == LookOf(k)
    ensures BytesIdiom(MatchBytes(k, n).value, n, swap, look) == k
  {
    hide Splat;
    swap := MatchByteParts(k.l.l, k.l.r).Some?;
  }

  /** How the instructions of a matched expression look, by their place in the idiom. */
  function LookAt(e: Expr, n: nat): Look
    requires n >= 1 && MatchTop(e, n).Some? && MatchBytes(MatchTop(e, n).value, n).Some?
    requires MatchNibbles(MatchBytes(MatchTop(e, n).value, n).value, n).Some?
  {
    var k := MatchTop(e, n).value;
    var j := MatchBytes(k, n).value;
    var i := MatchNibbles(j, n).value;
    var swapped := MatchNibbleParts(j.l, j.r, n).None?;
    var high, low := if swapped then j.l else j.r, if swapped then j.r else j.l;
    var shifted := if MatchByteParts(k.l.l, k.l.r).Some? then k.l.l else k.l.r;
    (x: nat) =>
      match x
      case 0 => LookOf(i) case 1 => LookOf(if i.Node? then i.r else i)
      case 2 => LookOf(if i.Node? && i.r.Node? then i.r.l else i)
      case 3 => LookOf(low) case 4 => LookOf(high) case 5 => LookOf(if high.Node? then high.l else high)
      case 6 => LookOf(j) case 7 => LookOf(shifted) case 8 => LookOf(k.l) case 9 => LookOf(k)
      case 10 => LookOf(e.l) case _ => LookOf(e)
  }

  /** Nothing but the idiom is recognised. */
  lemma RecognisedIsIdiom(e: Expr, len: nat) returns (n: nat, swapNibbles: bool, swapBytes: bool, look: Look)
    requires TryToRecognizePopCount(e, len).Some?
    ensures n >= 1 && len == 8 * n && 1 < n <= 16
    ensures e == PopCountIdiom(TryToRecognizePopCount(e, len).value, n, swapNibbles, swapBytes, look)
  {
    hide Splat, MatchPairs, MatchNibbles, MatchBytes, PairsIdiom, NibblesIdiom, BytesIdiom, MatchNibbleParts,
         MatchByteParts;
    n := len / 8;
    var k := MatchTop(e, n).value;
    var j := MatchBytes(k, n).value;
    var i := MatchNibbles(j, n).value;
    look := LookAt(e, n);
    PairsAre(i, n, look) by { MatchedShapes(i, j, k, n); }
    swapNibbles := NibblesAre(j, n, look) by { MatchedShapes(i, j, k, n); }
    swapBytes := BytesAre(k, n, look);
    assert look(10) == LookOf(e.l) && look(11) == LookOf(e);
    assert e.l == Dressed(look, 10, Mul, k, Num(Splat(n, 0x01)));
    assert e == Dressed(look, 11, LShr, e.l, Num(8 * n - 8));
    assert TryToRecognizePopCount(e, len) == MatchPairs(i, n);
  }

  lemma MatchedShapes(i: Expr, j: Expr, k: Expr, n: nat)
    requires MatchPairs(i, n).Some? && MatchNibbles(j, n).Some? && MatchBytes(k, n).Some?
    ensures i.Node? && i.r.Node?
    ensures var swapped := MatchNibbleParts(j.l, j.r, n).None?;
            j.Node? && (if swapped then j.l else j.r).Node?
  {
    hide Splat;
  }

  // ----- what the matched pieces compute -----

  lemma SmallShifts(x: nat)
    ensures Quotient(x, Pow2(1)) == x / 2 && Quotient(x, Pow2(2)) == x / 4 && Quotient(x, Pow2(4)) == x / 16
  {
    SmallPowers();
  }

  lemma {:induction false} PairsCompute(e: Expr, n: nat, env: Valuation)
    requires n >= 2 && MatchPairs(e, n).Some?
    ensures Computes(Eval(e, 8 * n, env), Eval(MatchPairs(e, n).value, 8 * n, env), x => PairsOf(n, x))
  {
    hide Violates, Bitwise, Pow2, Splat, Quotient;
    var w, x := 8 * n, Eval(e.l, 8 * n, env);
    if x.Int? { SmallShifts(x.n); }
    var shifted := EvalBin(LShr, e.r.l.flags, w, x, Int(1));
    var masked := EvalBin(And, e.r.flags, w, shifted, Int(Splat(n, 0x55)));
    assert Eval(e.r.l, w, env) == shifted;
    assert Eval(e.r, w, env) == masked;
  }

  lemma {:induction false} NibblePartsCompute(a: Expr, b: Expr, n: nat, env: Valuation)
    requires n >= 2 && MatchNibbleParts(a, b, n).Some?
    ensures var x := Eval(MatchNibbleParts(a, b, n).value, 8 * n, env);
            Computes(Eval(a, 8 * n, env), x, i => Bitwise(LAnd, i, Splat(n, 0x33)))
            && Computes(Eval(b, 8 * n, env), x, i => Bitwise(LAnd, i / 4, Splat(n, 0x33)))
  {
    var w, x := 8 * n, Eval(a.l, 8 * n, env);
    if x.Int? { SmallShifts(x.n); }
    assert Eval(b.l, w, env) == EvalBin(LShr, b.l.flags, w, x, Int(2));
  }

  lemma {:induction false} NibblesCompute(e: Expr, n: nat, env: Valuation)
    requires n >= 2 && MatchNibbles(e, n).Some?
    ensures Computes(Eval(e, 8 * n, env), Eval(MatchNibbles(e, n).value, 8 * n, env), i => NibblesOf(n, i))
  {
    hide Violates, Bitwise, Pow2, Splat, MatchNibbleParts;
    if MatchNibbleParts(e.l, e.r, n).Some? {
      NibblePartsCompute(e.l, e.r, n, env);
    } else {
      NibblePartsCompute(e.r, e.l, n, env);
    }
  }

  lemma {:induction false} BytesCompute(e: Expr, n: nat, env: Valuation)
    requires n >= 2 && MatchBytes(e, n).Some?
    ensures Computes(Eval(e, 8 * n, env), Eval(MatchBytes(e, n).value, 8 * n, env), i => BytesOf(n, i))
  {
    hide Splat, Bitwise;
    var w, x := 8 * n, Eval(MatchBytes(e, n).value, 8 * n, env);
    var a := if MatchByteParts(e.l.l, e.l.r).Some? then e.l.l else e.l.r;
    if x.Int? { SmallShifts(x.n); }
    assert Eval(a, w, env) == EvalBin(LShr, a.flags, w, x, Int(4));
  }

  lemma {:induction false} TopComputes(e: Expr, n: nat, env: Valuation)
    requires n >= 2 && MatchTop(e, n).Some?
    ensures Computes(Eval(e, 8 * n, env), Eval(MatchTop(e, n).value, 8 * n, env), i => TopOf(n, i))
  {
    var w, x := 8 * n, Eval(e.l.l, 8 * n, env);
    assert Eval(e.l, w, env) == EvalBin(Mul, e.l.flags, w, x, Int(Splat(n, 0x01)));
  }

  function CtPop(v: Val): Val {
    if v.Int? then Int(CountBits(v.n)) else v
  }

  lemma {:induction false} MatchedOk(e: Expr, n: nat, w: nat)
    requires ExprOk(e, w) && n >= 1
    ensures MatchTop(e, n).Some? ==> ExprOk(MatchTop(e, n).value, w)
    ensures MatchBytes(e, n).Some? ==> ExprOk(MatchBytes(e, n).value, w)
    ensures MatchNibbles(e, n).Some? ==> ExprOk(MatchNibbles(e, n).value, w)
    ensures MatchPairs(e, n).Some? ==> ExprOk(MatchPairs(e, n).value, w)
  {
    if e.Node? {
      NodeOk(e, w);
      if e.l.Node? { NodeOk(e.l, w); if e.l.l.Node? { NodeOk(e.l.l, w); } if e.l.r.Node? { NodeOk(e.l.r, w); } }
      if e.r.Node? { NodeOk(e.r, w); }
    }
  }

  lemma {:induction false} NodeOk(e: Expr, w: nat)
    requires e.Node? && ExprOk(e, w)
    ensures ExprOk(e.l, w) && ExprOk(e.r, w)
  {
  }

  /** Replacing the recognised expression by ctpop refines it, at every width the guard accepts. */
  lemma {:induction false} PopCountRefines(e: Expr, len: nat, env: Valuation)
    requires len >= 1 && ExprOk(e, len) && TryToRecognizePopCount(e, len).Some?
    ensures Refines(Eval(e, len, env), CtPop(Eval(TryToRecognizePopCount(e, len).value, len, env)))
  {
    hide Eval, MatchTop, MatchBytes, MatchNibbles, MatchPairs, ExprOk, PairsOf, NibblesOf, BytesOf, TopOf, CountBits;
    var n := len / 8;
    var m := MatchTop(e, n).value;
    var s := MatchBytes(m, n).value;
    var a := MatchNibbles(s, n).value;
    var root := MatchPairs(a, n).value;
    TopComputes(e, n, env);
    BytesCompute(m, n, env);
    NibblesCompute(s, n, env);
    PairsCompute(a, n, env);
    MatchedOk(e, n, len);
    MatchedOk(m, n, len);
    MatchedOk(s, n, len);
    MatchedOk(a, n, len);
    EvalInRange(root, len, env);
    var x := Eval(root, len, env);
    if x.Int? { IdiomCounts(n, x.n); }
  }
}
