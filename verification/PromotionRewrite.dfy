/** The three walks of a promotion: the new parameter list, the operands at a call, and the callee's
    own uses. They run separately and have to agree in position. */
module PromotionRewrite {
  import opened Collections
  import opened PrefixSet
  import PromotionSafety

  type Ty = nat
  type Pointer = nat
  type Key = (Ty, Path)

  /** A use of a promoted argument: a direct load, or a GEP all of whose users are loads (`dead` if
      it has none). */
  datatype PUse = Direct(ty: Ty) | Gep(srcTy: Ty, indices: Path, dead: bool)

  datatype Arg = Unchanged | ByVal(fields: nat) | Promoted(uses: seq<PUse>)

  /** What a new parameter carries. */
  datatype Param = Whole(arg: nat) | Field(arg: nat, index: nat) | Element(arg: nat, path: Path)

  /** What a call passes: an operand as it was, or a value loaded through it first. */
  datatype Operand = Pass(v: Pointer) | LoadAt(v: Pointer, path: Path)

  predicate IsDead(u: PUse) { u.Gep? && u.dead }

  function UseTy(u: PUse): Ty { if u.Direct? then u.ty else u.srcTy }

  /** GEPs with a single zero index are the same as direct loads. */
  function UsePath(u: PUse): Path {
    if u.Direct? || u.indices == [0] then [] else u.indices
  }

  function UseKey(u: PUse): Key { (UseTy(u), UsePath(u)) }

  predicate KeyLess(a: Key, b: Key) { a.0 < b.0 || (a.0 == b.0 && Less(a.1, b.1)) }

  ghost predicate SortedKeys(t: seq<Key>) {
    forall i, j | 0 <= i < j < |t| :: KeyLess(t[i], t[j])
  }

  /** The ordered table of the accesses made by the uses that are not dead. */
  ghost predicate IsTable(t: seq<Key>, uses: seq<PUse>) {
    SortedKeys(t) && forall k :: k in t <==> exists u :: u in uses && !IsDead(u) && UseKey(u) == k
  }

  /** All accesses are of one type; GEPs nothing uses are no accesses. */
  ghost predicate OneType(uses: seq<PUse>) {
    forall u, w | u in uses && w in uses && !IsDead(u) && !IsDead(w) :: UseTy(u) == UseTy(w)
  }

  /** A use as the rewriting sees it, once the safety check has let it pass. */
  function AsPromoted(c: PromotionSafety.Use): PUse
    requires PromotionSafety.Skipped(c) || PromotionSafety.UseOk(c)
  {
    match c
    case Load(_, ty, _, _) => Direct(ty)
    case Gep(ty, indices, users) => Gep(ty, if indices.Some? then indices.value else [], users == [])
  }

  ghost predicate LetPass(checked: seq<PromotionSafety.Use>) {
    forall c | c in checked :: PromotionSafety.Skipped(c) || PromotionSafety.UseOk(c)
  }

  function PromotedUses(checked: seq<PromotionSafety.Use>): (uses: seq<PUse>)
    requires LetPass(checked)
    ensures |uses| == |checked|
  {
    seq(|checked|, i requires 0 <= i < |checked| => AsPromoted(checked[i]))
  }

  /** An argument the safety check accepts is accessed at one type, whatever dead GEPs it has. */
  lemma AcceptedIsOneType(byVal: Option<Ty>, entry: seq<PromotionSafety.EntryLoad>, checked: seq<PromotionSafety.Use>,
                          callersValid: Ty -> bool, max: nat)
    requires PromotionSafety.Accepted(byVal, entry, checked, callersValid, max)
    ensures LetPass(checked) && OneType(PromotedUses(checked))
  {
    var base := PromotionSafety.BaseType(byVal, entry, checked);
    var good := PromotionSafety.AlwaysGood(byVal, base, callersValid);
    forall c | c in checked ensures PromotionSafety.Skipped(c) || PromotionSafety.UseOk(c) {
      assert PromotionSafety.UseAccepted(good, base, entry, c);
    }
    var uses := PromotedUses(checked);
    forall u | u in uses && !IsDead(u) ensures base == Some(UseTy(u)) {
      var i :| 0 <= i < |uses| && uses[i] == u;
      assert PromotionSafety.UseAccepted(good, base, entry, checked[i]);
    }
  }

  // ----- the table -----

  lemma KeyLessTransitive(a: Key, b: Key, c: Key)
    requires KeyLess(a, b) && KeyLess(b, c)
    ensures KeyLess(a, c)
  {
    if a.0 == b.0 == c.0 { LessTransitive(a.1, b.1, c.1); }
  }

  lemma KeyLessTotal(a: Key, b: Key)
    ensures KeyLess(a, b) || a == b || KeyLess(b, a)
    ensures !(KeyLess(a, b) && a == b)
  {
    LessTotal(a.1, b.1);
    LessIrreflexive(a.1);
  }

  method InsertKey(t: seq<Key>, k: Key) returns (t': seq<Key>)
    requires SortedKeys(t)
    ensures SortedKeys(t') && forall x :: x in t' <==> x in t || x == k
  {
    var i := 0;
    while i < |t| && KeyLess(t[i], k)
      invariant 0 <= i <= |t| && forall j | 0 <= j < i :: KeyLess(t[j], k)
    {
      i := i + 1;
    }
    if i < |t| && t[i] == k {
      return t;
    }
    t' := t[..i] + [k] + t[i..];
    forall j | i <= j < |t| ensures KeyLess(k, t[j]) {
      KeyLessTotal(t[i], k);
      if j > i { KeyLessTransitive(k, t[i], t[j]); }
    }
    assert t == t[..i] + t[i..];
  }

  /** Collects the accesses of one argument, leaving dead GEPs out. */
  method Scalarize(uses: seq<PUse>) returns (t: seq<Key>)
    ensures IsTable(t, uses)
  {
    t := [];
    for i := 0 to |uses|
      invariant IsTable(t, uses[..i])
    {
      ghost var was := t;
      var u := uses[i];
      assert uses[..i + 1] == uses[..i] + [u];
      if !IsDead(u) {
        t := InsertKey(t, UseKey(u));
        assert u in uses[..i + 1];
      }
      forall k ensures k in t <==> exists w :: w in uses[..i + 1] && !IsDead(w) && UseKey(w) == k {
        if k in was {
          var w :| w in uses[..i] && !IsDead(w) && UseKey(w) == k;
          assert w in uses[..i + 1];
        }
      }
    }
    assert uses[..|uses|] == uses;
  }

  /** With one type, keys are told apart by their paths, and a direct load's key comes first. */
  lemma PathsTellApart(t: seq<Key>, uses: seq<PUse>, i: nat, j: nat)
    requires IsTable(t, uses) && OneType(uses) && i < |t| && j < |t|
    ensures t[i].1 == t[j].1 ==> i == j
    ensures t[i].1 == [] ==> i == 0
  {
    assert t[i] in t && t[j] in t && t[0] in t;
    var u :| u in uses && !IsDead(u) && UseKey(u) == t[i];
    var w :| w in uses && !IsDead(w) && UseKey(w) == t[j];
    var z :| z in uses && !IsDead(z) && UseKey(z) == t[0];
    LessIrreflexive(t[i].1);
    assert i < j ==> KeyLess(t[i], t[j]);
    assert j < i ==> KeyLess(t[j], t[i]);
    assert i > 0 ==> KeyLess(t[0], t[i]);
  }

  // ----- parameters -----

  function ElementParams(a: nat, t: seq<Key>): seq<Param> {
    seq(|t|, i requires 0 <= i < |t| => Element(a, t[i].1))
  }

  function FieldParams(a: nat, n: nat): seq<Param> {
    seq(n, i requires 0 <= i < n => Field(a, i))
  }

  function ParamsOf(a: nat, arg: Arg, t: seq<Key>): seq<Param> {
    match arg
    case Unchanged => [Whole(a)]
    case ByVal(n) => FieldParams(a, n)
    case Promoted(_) => ElementParams(a, t)
  }

  function AllParams(args: seq<Arg>, tables: seq<seq<Key>>, n: nat): seq<Param>
    requires n <= |args| == |tables|
  {
    if n == 0 then [] else AllParams(args, tables, n - 1) + ParamsOf(n - 1, args[n - 1], tables[n - 1])
  }

  ghost predicate TablesOk(args: seq<Arg>, tables: seq<seq<Key>>, n: nat) {
    n <= |args| == |tables|
    && forall a | 0 <= a < n :: if args[a].Promoted? then IsTable(tables[a], args[a].uses) else tables[a] == []
  }

  /** First walk: the new parameter list, and the table of each promoted argument. */
  method NewParams(args: seq<Arg>) returns (params: seq<Param>, tables: seq<seq<Key>>)
    ensures TablesOk(args, tables, |args|) && params == AllParams(args, tables, |args|)
  {
    hide IsTable;
    tables := seq(|args|, i => []);
    params := [];
    for a := 0 to |args|
      invariant TablesOk(args, tables, a) && params == AllParams(args, tables, a)
      invariant forall x | a <= x < |args| :: tables[x] == []
    {
      match args[a] {
        case Unchanged =>
          params := params + [Whole(a)];
        case ByVal(n) =>
          params := params + FieldParams(a, n);
        case Promoted(uses) =>
          ghost var was := tables;
          var t := Scalarize(uses);
          tables := tables[a := t];
          SameParams(args, was, tables, a);
          params := params + ElementParams(a, t);
      }
    }
  }

  lemma {:induction false} SameParams(args: seq<Arg>, t: seq<seq<Key>>, s: seq<seq<Key>>, n: nat)
    requires n <= |args| == |t| == |s| && forall a | 0 <= a < n :: t[a] == s[a]
    ensures AllParams(args, t, n) == AllParams(args, s, n)
  {
    if n > 0 { SameParams(args, t, s, n - 1); }
  }

  // ----- calls -----

  function OperandFor(p: Param, actuals: seq<Pointer>): Operand
    requires p.arg < |actuals|
  {
    match p
    case Whole(a) => Pass(actuals[a])
    case Field(a, i) => LoadAt(actuals[a], [0, i])
    case Element(a, path) => LoadAt(actuals[a], path)
  }

  /** Each operand is the one its parameter calls for. */
  ghost predicate Matches(ops: seq<Operand>, params: seq<Param>, actuals: seq<Pointer>) {
    |ops| == |params|
    && forall k | 0 <= k < |ops| :: params[k].arg < |actuals| && ops[k] == OperandFor(params[k], actuals)
  }

  lemma MatchesMore(ops: seq<Operand>, params: seq<Param>, more: seq<Operand>, moreParams: seq<Param>,
                    actuals: seq<Pointer>)
    requires Matches(ops, params, actuals) && Matches(more, moreParams, actuals)
    ensures Matches(ops + more, params + moreParams, actuals)
  {
  }

  lemma NoOperands(actuals: seq<Pointer>)
    ensures Matches([], [], actuals)
  {
  }

  lemma OneOperand(a: nat, actuals: seq<Pointer>)
    requires a < |actuals|
    ensures Matches([Pass(actuals[a])], [Whole(a)], actuals)
  {
  }

  lemma MatchesSize(ops: seq<Operand>, params: seq<Param>, actuals: seq<Pointer>)
    requires Matches(ops, params, actuals)
    ensures |ops| == |params|
  {
  }

  /** One load per field of a struct passed by value. */
  method FieldLoads(a: nat, n: nat, actuals: seq<Pointer>) returns (ops: seq<Operand>)
    requires a < |actuals|
    ensures Matches(ops, FieldParams(a, n), actuals)
  {
    ops := [];
    for i := 0 to n
      invariant Matches(ops, FieldParams(a, i), actuals)
    {
      ops := ops + [LoadAt(actuals[a], [0, i])];
    }
  }

  /** One load per access in the argument's table, in table order. */
  method ElementLoads(a: nat, t: seq<Key>, actuals: seq<Pointer>) returns (ops: seq<Operand>)
    requires a < |actuals|
    ensures Matches(ops, ElementParams(a, t), actuals)
  {
    ops := [];
    for i := 0 to |t|
      invariant Matches(ops, ElementParams(a, t[..i]), actuals)
    {
      ops := ops + [LoadAt(actuals[a], t[i].1)];
    }
    assert t[..|t|] == t;
  }

  /** Second walk, once per call: the operands, with loads put in where the callee had them. */
  method NewOperands(args: seq<Arg>, tables: seq<seq<Key>>, actuals: seq<Pointer>) returns (ops: seq<Operand>)
    requires TablesOk(args, tables, |args|) && |actuals| >= |args|
    ensures |ops| == |AllParams(args, tables, |args|)| + |actuals| - |args|
    ensures Matches(ops[..|AllParams(args, tables, |args|)|], AllParams(args, tables, |args|), actuals)
    ensures forall v | |args| <= v < |actuals| ::
            ops[|AllParams(args, tables, |args|)| + v - |args|] == Pass(actuals[v])
  {
    hide IsTable, Matches, FieldParams, ElementParams;
    ops := [];
    assert Matches(ops, AllParams(args, tables, 0), actuals) by { NoOperands(actuals); }
    for a := 0 to |args|
      invariant Matches(ops, AllParams(args, tables, a), actuals)
    {
      match args[a] {
        case Unchanged =>
          OneOperand(a, actuals);
          MatchesMore(ops, AllParams(args, tables, a), [Pass(actuals[a])], [Whole(a)], actuals);
          ops := ops + [Pass(actuals[a])];
        case ByVal(n) =>
          var more := FieldLoads(a, n, actuals);
          MatchesMore(ops, AllParams(args, tables, a), more, FieldParams(a, n), actuals);
          ops := ops + more;
        case Promoted(_) =>
          var more := ElementLoads(a, tables[a], actuals);
          MatchesMore(ops, AllParams(args, tables, a), more, ElementParams(a, tables[a]), actuals);
          ops := ops + more;
      }
    }
    var rest := PassRest(actuals, |args|);
    MatchesSize(ops, AllParams(args, tables, |args|), actuals);
    ghost var fixed := ops;
    ops := ops + rest;
    assert ops[..|fixed|] == fixed;
  }

  /** Arguments beyond the parameter list are passed on as they are. */
  method PassRest(actuals: seq<Pointer>, from: nat) returns (ops: seq<Operand>)
    requires from <= |actuals|
    ensures |ops| == |actuals| - from && forall v | from <= v < |actuals| :: ops[v - from] == Pass(actuals[v])
  {
    ops := [];
    for v := from to |actuals|
      invariant |ops| == v - from && forall x | from <= x < v :: ops[x - from] == Pass(actuals[x])
    {
      ops := ops + [Pass(actuals[v])];
    }
  }

  // ----- the callee -----

  /** The parameter that replaces a use of the argument whose parameters start at `base`. */
  method Rewire(t: seq<Key>, ghost uses: seq<PUse>, u: PUse, base: nat) returns (index: nat)
    requires IsTable(t, uses) && OneType(uses) && u in uses && !IsDead(u)
    ensures base <= index < base + |t| && t[index - base].1 == UsePath(u)
  {
    assert UseKey(u) in t;
    ghost var at :| 0 <= at < |t| && t[at] == UseKey(u);
    if u.Direct? {
      PathsTellApart(t, uses, at, at);
      return base;
    }
    index := base;
    var i := 0;
    while t[i].1 != UsePath(u)
      invariant 0 <= i <= at && index == base + i
      decreases at - i
    {
      i, index := i + 1, index + 1;
    }
  }

  /** Where argument a's parameters start. */
  function Base(args: seq<Arg>, tables: seq<seq<Key>>, a: nat): nat
    requires a <= |args| == |tables|
  {
    |AllParams(args, tables, a)|
  }

  lemma {:induction false} ParamAt(args: seq<Arg>, tables: seq<seq<Key>>, n: nat, a: nat, i: nat)
    requires a < n <= |args| == |tables| && i < |ParamsOf(a, args[a], tables[a])|
    ensures Base(args, tables, a) + i < |AllParams(args, tables, n)|
    ensures AllParams(args, tables, n)[Base(args, tables, a) + i] == ParamsOf(a, args[a], tables[a])[i]
  {
    if a < n - 1 { ParamAt(args, tables, n - 1, a, i); }
  }

  /** What one use in the callee is replaced by, and what an actual call passes there. */
  datatype Wire = Wire(arg: nat, use: PUse, index: nat)

  ghost predicate WiredOk(args: seq<Arg>, params: seq<Param>, w: Wire) {
    w.arg < |args| && args[w.arg].Promoted? && w.use in args[w.arg].uses && !IsDead(w.use)
    && w.index < |params| && params[w.index] == Element(w.arg, UsePath(w.use))
  }

  /** The parameters from k on are those an argument keeps for itself: itself, or a byval struct's
      fields one by one. */
  ghost predicate KeptAt(args: seq<Arg>, tables: seq<seq<Key>>, a: nat, k: nat)
    requires a < |args| == |tables|
  {
    var params := AllParams(args, tables, |args|);
    match args[a]
    case Unchanged => k < |params| && params[k] == Whole(a)
    case ByVal(n) => forall i | 0 <= i < n :: k + i < |params| && params[k + i] == Field(a, i)
    case Promoted(_) => true
  }

  lemma KeptAtBase(args: seq<Arg>, tables: seq<seq<Key>>, a: nat)
    requires a < |args| == |tables| && !args[a].Promoted?
    ensures KeptAt(args, tables, a, Base(args, tables, a))
  {
    var params, k := AllParams(args, tables, |args|), Base(args, tables, a);
    match args[a]
    case Unchanged => ParamAt(args, tables, |args|, a, 0);
    case ByVal(n) =>
      forall i | 0 <= i < n ensures k + i < |params| && params[k + i] == Field(a, i) {
        ParamAt(args, tables, |args|, a, i);
      }
  }

  /** Third walk: the parameters of each argument in turn, every live use sent to its own. */
  method RewireAll(args: seq<Arg>, tables: seq<seq<Key>>) returns (wires: seq<Wire>, kept: map<nat, nat>)
    requires TablesOk(args, tables, |args|) && forall a | a in args && a.Promoted? :: OneType(a.uses)
    ensures forall w | w in wires :: WiredOk(args, AllParams(args, tables, |args|), w)
    ensures forall a, u | 0 <= a < |args| && args[a].Promoted? && u in args[a].uses && !IsDead(u) ::
              exists w :: w in wires && w.arg == a && w.use == u
    ensures forall a | 0 <= a < |args| && !args[a].Promoted? :: a in kept && KeptAt(args, tables, a, kept[a])
  {
    hide IsTable, AllParams, OneType, KeptAt, WiredOk, ElementParams, FieldParams;
    wires, kept := [], map[];
    var i2 := 0;
    AllParamsStart(args, tables);
    for a := 0 to |args|
      invariant i2 == Base(args, tables, a)
      invariant forall w | w in wires :: WiredOk(args, AllParams(args, tables, |args|), w)
      invariant forall x, u | 0 <= x < a && args[x].Promoted? && u in args[x].uses && !IsDead(u) ::
                  exists w :: w in wires && w.arg == x && w.use == u
      invariant forall x | 0 <= x < a && !args[x].Promoted? :: x in kept && KeptAt(args, tables, x, kept[x])
    {
      AllParamsNext(args, tables, a);
      match args[a] {
        case Unchanged =>
          KeptAtBase(args, tables, a);
          kept, i2 := kept[a := i2], i2 + 1;
        case ByVal(n) =>
          KeptAtBase(args, tables, a);
          kept, i2 := kept[a := i2], i2 + n;
        case Promoted(uses) =>
          var more := RewireUses(args, tables, a, i2);
          wires, i2 := wires + more, i2 + |tables[a]|;
      }
    }
  }

  lemma AllParamsStart(args: seq<Arg>, tables: seq<seq<Key>>)
    requires |args| == |tables|
    ensures Base(args, tables, 0) == 0
  {
  }

  /** How many parameters an argument becomes. */
  function Width(arg: Arg, t: seq<Key>): nat {
    match arg
    case Unchanged => 1
    case ByVal(n) => n
    case Promoted(_) => |t|
  }

  lemma AllParamsNext(args: seq<Arg>, tables: seq<seq<Key>>, a: nat)
    requires a < |args| == |tables|
    ensures Base(args, tables, a + 1) == Base(args, tables, a) + Width(args[a], tables[a])
  {
  }

  method RewireUses(args: seq<Arg>, tables: seq<seq<Key>>, a: nat, base: nat) returns (wires: seq<Wire>)
    requires TablesOk(args, tables, |args|) && a < |args| && args[a].Promoted? && OneType(args[a].uses)
    requires base == Base(args, tables, a)
    ensures forall w | w in wires :: WiredOk(args, AllParams(args, tables, |args|), w) && w.arg == a
    ensures forall u | u in args[a].uses && !IsDead(u) :: exists w :: w in wires && w.arg == a && w.use == u
  {
    hide IsTable, AllParams, OneType;
    var uses := args[a].uses;
    wires := [];
    for n := 0 to |uses|
      invariant forall w | w in wires :: WiredOk(args, AllParams(args, tables, |args|), w) && w.arg == a
      invariant forall i | 0 <= i < n && !IsDead(uses[i]) :: exists w :: w in wires && w.arg == a && w.use == uses[i]
    {
      if !IsDead(uses[n]) {
        var index := Rewire(tables[a], uses, uses[n], base);
        ParamAt(args, tables, |args|, a, index - base);
        ghost var was := wires;
        wires := wires + [Wire(a, uses[n], index)];
        assert Wire(a, uses[n], index) in wires;
        assert forall w :: w in was ==> w in wires;
      }
    }
  }

  // ----- agreement -----

  type Memory = (Pointer, Path) -> nat

  function Passed(op: Operand, mem: Memory): nat {
    match op
    case Pass(v) => v
    case LoadAt(v, path) => mem(v, path)
  }

  /** Whatever the caller's memory holds, a rewired use reads what its own load would have read. */
  lemma {:induction false} WalksAgree(args: seq<Arg>, tables: seq<seq<Key>>, actuals: seq<Pointer>, ops: seq<Operand>,
                                      w: Wire, mem: Memory)
    requires TablesOk(args, tables, |args|) && |actuals| >= |args|
    requires var params := AllParams(args, tables, |args|);
             |ops| >= |params| && Matches(ops[..|params|], params, actuals) && WiredOk(args, params, w)
    ensures w.index < |ops| && Passed(ops[w.index], mem) == mem(actuals[w.arg], UsePath(w.use))
  {
    var params := AllParams(args, tables, |args|);
    assert ops[..|params|][w.index] == ops[w.index];
  }

  /** An argument that keeps its own parameters receives what it did: itself, or, one by one and each
      from its own place, the fields of the struct it points to. */
  lemma {:induction false} KeptAgree(args: seq<Arg>, tables: seq<seq<Key>>, actuals: seq<Pointer>, ops: seq<Operand>,
                                     a: nat, k: nat, i: nat, mem: Memory)
    requires TablesOk(args, tables, |args|) && |actuals| >= |args| && a < |args| && KeptAt(args, tables, a, k)
    requires var params := AllParams(args, tables, |args|);
             |ops| >= |params| && Matches(ops[..|params|], params, actuals)
    ensures args[a] == Unchanged ==> k < |ops| && Passed(ops[k], mem) == actuals[a]
    ensures args[a].ByVal? && i < args[a].fields ==>
              k + i < |ops| && Passed(ops[k + i], mem) == mem(actuals[a], [0, i])
  {
    var params := AllParams(args, tables, |args|);
    forall j | 0 <= j < |params| ensures params[j].arg < |actuals| && ops[j] == OperandFor(params[j], actuals) {
      assert ops[..|params|][j] == ops[j];
    }
    if args[a].ByVal? && i < args[a].fields {
      var field := Field(a, i);
      assert params[k + i] == field;
    }
  }
}
