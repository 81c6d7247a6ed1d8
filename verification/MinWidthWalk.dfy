/** The second walk over the dag: every node's minimum width is drawn up into the root. The walk
    is not a post-order: an operand shared with an earlier sibling may be finished after the node
    that uses it, so a node's own minimum can be too small while the root's is still exact. */
module MinWidthWalk {
  import opened Collections
  import opened Ir
  import opened TruncDag

  type InfoMap = map<Id, Info>

  predicate Seen(info: InfoMap, k: nat, id: Id) {
    id in info && info[id].valid == k
  }

  predicate Finished(info: InfoMap, k: nat, work: seq<Value>, id: Id) {
    Seen(info, k, id) && Ref(id) !in work
  }

  ghost predicate OperandsSeen(p: Program, info: InfoMap, k: nat, id: Id) {
    forall y | Edge(p, id, y) :: Seen(info, k, y)
  }

  /** `id` is an operand of something still on the stack. */
  ghost predicate UsedBelow(p: Program, stack: seq<Id>, pos: seq<nat>, limit: int, id: Id)
    requires |pos| == |stack|
  {
    exists j :: 0 <= j < |stack| && pos[j] < limit && Edge(p, stack[j], id)
  }

  /** A finished operand of a stack entry holds at least the minimum `w`. */
  ghost predicate Carried(p: Program, info: InfoMap, k: nat, work: seq<Value>, stack: seq<Id>, w: nat) {
    exists j, c :: 0 <= j < |stack| && Edge(p, stack[j], c) && Finished(info, k, work, c) && info[c].min >= w
  }

  /** The minimum is the trunc's width or some node's own requirement. */
  ghost predicate Attained(init: InfoMap, k: nat, w: nat) {
    w == k || exists d :: d in init && init[d].min == w
  }

  ghost predicate Tables(init: InfoMap, info: InfoMap, k: nat) {
    info.Keys == init.Keys
    && forall d | d in info ::
      (info[d].valid == 0 || info[d].valid == k) && info[d].min >= init[d].min
      && info[d].newValue == init[d].newValue && Attained(init, k, info[d].min)
  }

  ghost predicate WorkOk(info: InfoMap, k: nat, work: seq<Value>, stack: seq<Id>, pos: seq<nat>) {
    Frames(work, stack, pos) && Distinct(work)
    && forall i | 0 <= i < |work| :: work[i].Ref? && Seen(info, k, work[i].id)
  }

  /** Every entry but the root was pushed by something still on the stack below it. */
  ghost predicate Parented(p: Program, work: seq<Value>, stack: seq<Id>, pos: seq<nat>) {
    |pos| == |stack|
    && forall i | 0 < i < |work| :: work[i].Ref? ==> UsedBelow(p, stack, pos, i, work[i].id)
  }

  /** Stack entries hold the trunc's width; except for `partial`, their operands are all seen. */
  ghost predicate StackOk(p: Program, info: InfoMap, k: nat, stack: seq<Id>, partial: set<Id>) {
    forall s | s in stack :: s in info && info[s].min >= k && (s in partial || OperandsSeen(p, info, k, s))
  }

  ghost predicate FinishedSeen(p: Program, info: InfoMap, k: nat, work: seq<Value>) {
    forall d | Finished(info, k, work, d) :: OperandsSeen(p, info, k, d)
  }

  ghost predicate FinishedCarried(p: Program, init: InfoMap, info: InfoMap, k: nat, root: Id, work: seq<Value>,
                                  stack: seq<Id>)
    requires info.Keys == init.Keys && root in info
  {
    forall d | Finished(info, k, work, d) ::
      if work == [] then info[root].min >= init[d].min else Carried(p, info, k, work, stack, init[d].min)
  }

  ghost predicate Rooted(info: InfoMap, k: nat, root: Id, work: seq<Value>) {
    Seen(info, k, root) && if work == [] then info[root].min >= k else work[0] == Ref(root)
  }

  /** The walk's invariant. */
  ghost predicate MinInv(p: Program, init: InfoMap, info: InfoMap, k: nat, root: Id, work: seq<Value>, stack: seq<Id>,
                         pos: seq<nat>, partial: set<Id>) {
    k >= 1 && Tables(init, info, k) && WorkOk(info, k, work, stack, pos) && Parented(p, work, stack, pos)
    && StackOk(p, info, k, stack, partial) && FinishedSeen(p, info, k, work)
    && Rooted(info, k, root, work) && FinishedCarried(p, init, info, k, root, work, stack)
  }

  lemma MinStart(p: Program, init: InfoMap, k: nat, root: Id)
    requires k >= 1 && root in init && forall d | d in init :: init[d].valid == 0
    ensures MinInv(p, init, init[root := init[root].(valid := k)], k, root, [Ref(root)], [], [], {})
  {
    forall d | d in init ensures Attained(init, k, init[d].min) { }
    assert Ref(root) in [Ref(root)];
  }

  /** Either the last worklist entry is the stack's top, or it is not on the stack at all. */
  lemma MinTop(p: Program, info: InfoMap, k: nat, work: seq<Value>, stack: seq<Id>, pos: seq<nat>)
    requires WorkOk(info, k, work, stack, pos) && Parented(p, work, stack, pos) && work != []
    ensures work[|work| - 1].Ref? && Seen(info, k, work[|work| - 1].id) && |pos| == |stack| <= |work|
    ensures stack != [] && stack[|stack| - 1] == work[|work| - 1].id ==> pos[|pos| - 1] == |work| - 1
    ensures !(stack != [] && stack[|stack| - 1] == work[|work| - 1].id) ==>
              |stack| < |work| && forall j | 0 <= j < |pos| :: pos[j] < |work| - 1
  {
    hide UsedBelow;
    var last := |work| - 1;
    StackFits(pos, |work|);
    if stack != [] && stack[|stack| - 1] == work[last].id {
      assert work[pos[|pos| - 1]] == work[last];
    } else {
      forall j | 0 <= j < |pos| ensures pos[j] < last {
        if pos[j] == last { assert false; }
      }
      StackFits(pos, last);
    }
  }

  lemma {:induction false} StackFits(pos: seq<nat>, n: nat)
    requires forall j | 0 <= j < |pos| :: pos[j] < n
    requires forall i, j | 0 <= i < j < |pos| :: pos[i] < pos[j]
    ensures |pos| <= n
  {
    if pos != [] { StackFits(pos[..|pos| - 1], pos[|pos| - 1]); }
  }

  lemma CarriedStays(p: Program, info: InfoMap, info': InfoMap, k: nat, work: seq<Value>, work': seq<Value>,
                     stack: seq<Id>, stack': seq<Id>, w: nat)
    requires Carried(p, info, k, work, stack, w)
    requires stack <= stack'
    requires forall c | Finished(info, k, work, c) :: Finished(info', k, work', c) && info'[c].min == info[c].min
    ensures Carried(p, info', k, work', stack', w)
  {
    var j, c :| 0 <= j < |stack| && Edge(p, stack[j], c) && Finished(info, k, work, c) && info[c].min >= w;
    assert stack'[j] == stack[j];
  }

  lemma UsedBelowStays(p: Program, stack: seq<Id>, pos: seq<nat>, stack': seq<Id>, pos': seq<nat>, limit: int, id: Id)
    requires |pos| == |stack| && |pos'| == |stack'| && stack <= stack' && pos <= pos'
    requires UsedBelow(p, stack, pos, limit, id)
    ensures UsedBelow(p, stack', pos', limit, id)
  {
    var j :| 0 <= j < |stack| && pos[j] < limit && Edge(p, stack[j], id);
    assert stack'[j] == stack[j] && pos'[j] == pos[j];
  }

  lemma OperandsSeenStays(p: Program, info: InfoMap, info': InfoMap, k: nat, x: Id)
    requires OperandsSeen(p, info, k, x)
    requires forall y | Seen(info, k, y) :: Seen(info', k, y)
    ensures OperandsSeen(p, info', k, x)
  {
  }

  /** What a step keeps when no node changes between finished and unfinished. */
  lemma SameFinished(p: Program, init: InfoMap, info: InfoMap, info': InfoMap, k: nat, root: Id, work: seq<Value>,
                     work': seq<Value>, stack: seq<Id>, stack': seq<Id>)
    requires info.Keys == init.Keys == info'.Keys && root in info && work != [] && work' != [] && stack <= stack'
    requires FinishedSeen(p, info, k, work) && FinishedCarried(p, init, info, k, root, work, stack)
    requires forall y | Seen(info, k, y) :: Seen(info', k, y)
    requires forall c :: Finished(info, k, work, c) <==> Finished(info', k, work', c)
    requires forall c | Finished(info, k, work, c) :: info'[c].min == info[c].min
    ensures FinishedSeen(p, info', k, work') && FinishedCarried(p, init, info', k, root, work', stack')
  {
    hide Carried, OperandsSeen;
    forall d | Finished(info', k, work', d)
      ensures OperandsSeen(p, info', k, d) && Carried(p, info', k, work', stack', init[d].min)
    {
      OperandsSeenStays(p, info, info', k, d);
      CarriedStays(p, info, info', k, work, work', stack, stack', init[d].min);
    }
  }

  lemma StackOkStays(p: Program, info: InfoMap, info': InfoMap, k: nat, stack: seq<Id>, stack': seq<Id>,
                     partial: set<Id>)
    requires StackOk(p, info, k, stack, partial)
    requires info.Keys == info'.Keys && forall x | x in info :: info'[x].min >= info[x].min
    requires forall y | Seen(info, k, y) :: Seen(info', k, y)
    requires forall s | s in stack' :: s in stack || (s in partial && s in info' && info'[s].min >= k)
    ensures StackOk(p, info', k, stack', partial)
  {
    hide OperandsSeen;
    forall s | s in stack' ensures s in info' && info'[s].min >= k && (s in partial || OperandsSeen(p, info', k, s)) {
      if s in stack && s !in partial { OperandsSeenStays(p, info, info', k, s); }
    }
  }

  lemma ParentedStays(p: Program, work: seq<Value>, stack: seq<Id>, pos: seq<nat>, stack': seq<Id>, pos': seq<nat>)
    requires Parented(p, work, stack, pos)
    requires |pos'| == |stack'| && stack <= stack' && pos <= pos'
    ensures Parented(p, work, stack', pos')
  {
    hide UsedBelow;
    forall i | 0 < i < |work| && work[i].Ref? ensures UsedBelow(p, stack', pos', i, work[i].id) {
      UsedBelowStays(p, stack, pos, stack', pos', i, work[i].id);
    }
  }

  lemma TablesRaise(init: InfoMap, info: InfoMap, k: nat, I: Id, info': InfoMap)
    requires Tables(init, info, k) && I in info
    requires info' == info[I := info[I].(min := if info[I].min > k then info[I].min else k)]
    ensures Tables(init, info', k)
  {
    hide Attained;
    assert Attained(init, k, k) by { AttainedByTrunc(init, k); }
  }

  lemma AttainedByTrunc(init: InfoMap, k: nat)
    ensures Attained(init, k, k)
  {
  }

  /** An instruction is put on the stack and its minimum raised to the trunc's width. */
  lemma BeginNode(p: Program, init: InfoMap, info: InfoMap, k: nat, root: Id, work: seq<Value>, stack: seq<Id>,
                  pos: seq<nat>, I: Id, info': InfoMap)
    requires MinInv(p, init, info, k, root, work, stack, pos, {}) && work != [] && work[|work| - 1] == Ref(I)
    requires |pos| == |stack| && forall j | 0 <= j < |pos| :: pos[j] < |work| - 1
    requires I in info && info' == info[I := info[I].(min := if info[I].min > k then info[I].min else k)]
    ensures MinInv(p, init, info', k, root, work, stack + [I], pos + [|work| - 1], {I})
  {
    hide FinishedSeen, FinishedCarried, StackOk, Parented, WorkOk, Attained;
    assert work[|work| - 1] in work;
    assert forall d :: Finished(info, k, work, d) <==> Finished(info', k, work, d);
    ParentedStays(p, work, stack, pos, stack + [I], pos + [|work| - 1]);
    SameFinished(p, init, info, info', k, root, work, work, stack, stack + [I]);
    StackOkRelax(p, info, k, stack, I);
    StackOkStays(p, info, info', k, stack, stack + [I], {I});
    WorkOkBegin(info, k, work, stack, pos, info');
    TablesRaise(init, info, k, I, info');
  }

  lemma WorkOkBegin(info: InfoMap, k: nat, work: seq<Value>, stack: seq<Id>, pos: seq<nat>, info': InfoMap)
    requires WorkOk(info, k, work, stack, pos) && work != [] && work[|work| - 1].Ref?
    requires forall j | 0 <= j < |pos| :: pos[j] < |work| - 1
    requires forall x | Seen(info, k, x) :: Seen(info', k, x)
    ensures WorkOk(info', k, work, stack + [work[|work| - 1].id], pos + [|work| - 1])
  {
  }

  lemma StackOkRelax(p: Program, info: InfoMap, k: nat, stack: seq<Id>, I: Id)
    requires StackOk(p, info, k, stack, {})
    ensures StackOk(p, info, k, stack, {I})
  {
  }

  lemma WorkOkPush(info: InfoMap, k: nat, work: seq<Value>, stack: seq<Id>, pos: seq<nat>, y: Id)
    requires k >= 1 && WorkOk(info, k, work, stack, pos) && y in info && info[y].valid == 0
    ensures WorkOk(info[y := info[y].(valid := k)], k, work + [Ref(y)], stack, pos)
  {
    assert Ref(y) !in work;
  }

  lemma ParentedPush(p: Program, work: seq<Value>, stack: seq<Id>, pos: seq<nat>, y: Id)
    requires Frames(work, stack, pos) && Parented(p, work, stack, pos)
    requires stack != [] && Edge(p, stack[|stack| - 1], y)
    ensures Parented(p, work + [Ref(y)], stack, pos)
  {
    var work' := work + [Ref(y)];
    forall i | 0 < i < |work'| && work'[i].Ref? ensures UsedBelow(p, stack, pos, i, work'[i].id) {
      if i == |work| {
        assert pos[|stack| - 1] < i;
      } else {
        assert UsedBelow(p, stack, pos, i, work[i].id);
      }
    }
  }

  lemma TablesSee(init: InfoMap, info: InfoMap, k: nat, y: Id)
    requires Tables(init, info, k) && y in info
    ensures Tables(init, info[y := info[y].(valid := k)], k)
  {
    hide Attained;
  }

  /** Pushing y makes it seen, and finishes nothing. */
  lemma SeePushed(info: InfoMap, k: nat, work: seq<Value>, y: Id)
    requires y in info && info[y].valid == 0 && k >= 1
    ensures var info' := info[y := info[y].(valid := k)];
            (forall x | Seen(info, k, x) :: Seen(info', k, x))
            && (forall c :: Finished(info, k, work, c) <==> Finished(info', k, work + [Ref(y)], c))
            && info'.Keys == info.Keys && forall x | x in info :: info'[x].min == info[x].min
  {
    var work' := work + [Ref(y)];
    assert forall v :: v in work' <==> v in work || v == Ref(y);
  }

  /** An operand not seen before goes on the worklist. */
  lemma AddOperand(p: Program, init: InfoMap, info: InfoMap, k: nat, root: Id, work: seq<Value>, stack: seq<Id>,
                   pos: seq<nat>, I: Id, y: Id)
    requires MinInv(p, init, info, k, root, work, stack, pos, {I}) && work != []
    requires stack != [] && stack[|stack| - 1] == I && Edge(p, I, y) && y in info && info[y].valid == 0
    ensures MinInv(p, init, info[y := info[y].(valid := k)], k, root, work + [Ref(y)], stack, pos, {I})
  {
    hide FinishedSeen, FinishedCarried, StackOk, Parented, Edge, Attained, Finished, UsedBelow;
    var info', work' := info[y := info[y].(valid := k)], work + [Ref(y)];
    SeePushed(info, k, work, y);
    TablesSee(init, info, k, y);
    WorkOkPush(info, k, work, stack, pos, y);
    ParentedPush(p, work, stack, pos, y);
    SameFinished(p, init, info, info', k, root, work, work', stack, stack);
    StackOkStays(p, info, info', k, stack, stack, {I});
  }

  lemma OperandsDone(p: Program, init: InfoMap, info: InfoMap, k: nat, root: Id, work: seq<Value>, stack: seq<Id>,
                     pos: seq<nat>, I: Id)
    requires MinInv(p, init, info, k, root, work, stack, pos, {I}) && OperandsSeen(p, info, k, I)
    ensures MinInv(p, init, info, k, root, work, stack, pos, {})
  {
    hide FinishedSeen, FinishedCarried, WorkOk, Parented, OperandsSeen;
  }

  lemma FinishedAfterPop(info: InfoMap, k: nat, work: seq<Value>, I: Id, m: nat)
    requires work != [] && work[|work| - 1] == Ref(I) && Distinct(work) && Seen(info, k, I)
    ensures forall d :: Finished(info[I := info[I].(min := m)], k, work[..|work| - 1], d) <==>
            d == I || Finished(info, k, work, d)
    ensures !Finished(info, k, work, I)
  {
    hide Finished;
    forall d
      ensures Finished(info[I := info[I].(min := m)], k, work[..|work| - 1], d) <==>
              d == I || Finished(info, k, work, d)
    {
      FinishedAfterPopAt(info, k, work, I, m, d);
    }
    FinishedAfterPopAt(info, k, work, I, m, I);
  }

  lemma FinishedAfterPopAt(info: InfoMap, k: nat, work: seq<Value>, I: Id, m: nat, d: Id)
    requires work != [] && work[|work| - 1] == Ref(I) && Distinct(work) && Seen(info, k, I)
    ensures Finished(info[I := info[I].(min := m)], k, work[..|work| - 1], d) <==> d == I || Finished(info, k, work, d)
    ensures !Finished(info, k, work, I)
  {
    var work' := work[..|work| - 1];
    assert work == work' + [Ref(I)];
    assert Ref(I) !in work';
    assert Ref(d) in work <==> Ref(d) in work' || d == I;
  }

  lemma ParentedPop(p: Program, work: seq<Value>, stack: seq<Id>, pos: seq<nat>)
    requires Parented(p, work, stack, pos) && work != [] && stack != [] && pos[|pos| - 1] == |work| - 1
    ensures Parented(p, work[..|work| - 1], stack[..|stack| - 1], pos[..|pos| - 1])
  {
    var top := |stack| - 1;
    forall i | 0 < i < |work| - 1 && work[i].Ref?
      ensures UsedBelow(p, stack[..top], pos[..top], i, work[i].id)
    {
      assert UsedBelow(p, stack, pos, i, work[i].id);
      var j :| 0 <= j < |stack| && pos[j] < i && Edge(p, stack[j], work[i].id);
      assert stack[..top][j] == stack[j] && pos[..top][j] == pos[j];
    }
  }

  /** A requirement that the finished top absorbed is now carried by the top itself. */
  lemma CarriedByTop(p: Program, info: InfoMap, k: nat, work: seq<Value>, stack: seq<Id>, pos: seq<nat>, m: nat, w: nat)
    requires work != [] && stack != [] && |pos| == |stack| && pos[|pos| - 1] == |work| - 1
    requires work[|work| - 1] == Ref(stack[|stack| - 1]) && Distinct(work) && Seen(info, k, stack[|stack| - 1])
    requires UsedBelow(p, stack, pos, |work| - 1, stack[|stack| - 1]) && m >= w
    ensures Carried(p, info[stack[|stack| - 1] := info[stack[|stack| - 1]].(min := m)], k, work[..|work| - 1],
                    stack[..|stack| - 1], w)
  {
    hide Edge, Distinct;
    var top := |stack| - 1;
    var I := stack[top];
    var j :| 0 <= j < |stack| && pos[j] < |work| - 1 && Edge(p, stack[j], I);
    FinishedAfterPop(info, k, work, I, m);
    assert stack[..top][j] == stack[j];
  }

  lemma TopIsUsedBelow(p: Program, work: seq<Value>, stack: seq<Id>, pos: seq<nat>)
    requires Frames(work, stack, pos) && Parented(p, work, stack, pos)
    requires |work| > 1 && stack != [] && pos[|pos| - 1] == |work| - 1
    ensures UsedBelow(p, stack, pos, |work| - 1, stack[|stack| - 1])
  {
    hide UsedBelow;
    assert work[pos[|pos| - 1]] == Ref(stack[|stack| - 1]);
  }

  lemma CarriedAfterFinish(p: Program, info: InfoMap, k: nat, work: seq<Value>, stack: seq<Id>, pos: seq<nat>, m: nat,
                           w: nat)
    requires WorkOk(info, k, work, stack, pos) && Parented(p, work, stack, pos)
    requires work != [] && stack != [] && pos[|pos| - 1] == |work| - 1
    requires stack[|stack| - 1] in info
    requires forall y | Edge(p, stack[|stack| - 1], y) :: y in info && info[y].min <= m
    requires Carried(p, info, k, work, stack, w)
    ensures |work| == 1 ==> m >= w
    ensures |work| > 1 ==> Carried(p, info[stack[|stack| - 1] := info[stack[|stack| - 1]].(min := m)], k,
                                   work[..|work| - 1], stack[..|stack| - 1], w)
  {
    hide Parented, Edge, UsedBelow;
    if |work| > 1 { TopIsUsedBelow(p, work, stack, pos); }
    TopSeen(info, k, work, stack, pos);
    var j, c :| 0 <= j < |stack| && Edge(p, stack[j], c) && Finished(info, k, work, c) && info[c].min >= w;
    if j == |stack| - 1 {
      if |work| > 1 { CarriedByTop(p, info, k, work, stack, pos, m, w); }
    } else {
      assert pos[j] < pos[|stack| - 1];
      CarriedElsewhere(p, info, k, work, stack, m, w, j, c);
    }
  }

  lemma TopSeen(info: InfoMap, k: nat, work: seq<Value>, stack: seq<Id>, pos: seq<nat>)
    requires WorkOk(info, k, work, stack, pos)
    requires work != [] && stack != [] && pos[|pos| - 1] == |work| - 1
    ensures work[|work| - 1] == Ref(stack[|stack| - 1]) && Distinct(work) && Seen(info, k, stack[|stack| - 1])
  {
  }

  lemma CarriedElsewhere(p: Program, info: InfoMap, k: nat, work: seq<Value>, stack: seq<Id>, m: nat, w: nat, j: nat,
                         c: Id)
    requires work != [] && stack != [] && stack[|stack| - 1] in info
    requires work[|work| - 1] == Ref(stack[|stack| - 1]) && Distinct(work) && Seen(info, k, stack[|stack| - 1])
    requires j < |stack| - 1 && Edge(p, stack[j], c) && Finished(info, k, work, c) && info[c].min >= w
    ensures Carried(p, info[stack[|stack| - 1] := info[stack[|stack| - 1]].(min := m)], k, work[..|work| - 1],
                    stack[..|stack| - 1], w)
  {
    var I := stack[|stack| - 1];
    FinishedAfterPop(info, k, work, I, m);
    assert stack[..|stack| - 1][j] == stack[j];
  }

  lemma WorkOkPop(info: InfoMap, k: nat, work: seq<Value>, stack: seq<Id>, pos: seq<nat>, m: nat)
    requires WorkOk(info, k, work, stack, pos)
    requires work != [] && stack != [] && pos[|pos| - 1] == |work| - 1 && stack[|stack| - 1] in info
    ensures WorkOk(info[stack[|stack| - 1] := info[stack[|stack| - 1]].(min := m)], k, work[..|work| - 1],
                   stack[..|stack| - 1], pos[..|pos| - 1])
  {
    var top := |stack| - 1;
    assert forall j | 0 <= j < top :: pos[j] < pos[top];
    FramesPop(work, stack, pos, top);
  }

  lemma FinishSeen(p: Program, info: InfoMap, k: nat, work: seq<Value>, I: Id, m: nat)
    requires FinishedSeen(p, info, k, work) && OperandsSeen(p, info, k, I)
    requires work != [] && work[|work| - 1] == Ref(I) && Distinct(work) && Seen(info, k, I)
    ensures FinishedSeen(p, info[I := info[I].(min := m)], k, work[..|work| - 1])
  {
    hide OperandsSeen;
    var info' := info[I := info[I].(min := m)];
    FinishedAfterPop(info, k, work, I, m);
    forall d | Finished(info', k, work[..|work| - 1], d) ensures OperandsSeen(p, info', k, d) {
      OperandsSeenStays(p, info, info', k, d);
    }
  }

  lemma FinishCarried(p: Program, init: InfoMap, info: InfoMap, k: nat, root: Id, work: seq<Value>, stack: seq<Id>,
                      pos: seq<nat>, m: nat)
    requires info.Keys == init.Keys && root in info && FinishedCarried(p, init, info, k, root, work, stack)
    requires WorkOk(info, k, work, stack, pos) && Parented(p, work, stack, pos)
    requires work != [] && work[0] == Ref(root) && stack != [] && pos[|pos| - 1] == |work| - 1
    requires stack[|stack| - 1] in info && m >= init[stack[|stack| - 1]].min
    requires forall y | Edge(p, stack[|stack| - 1], y) :: y in info && info[y].min <= m
    ensures FinishedCarried(p, init, info[stack[|stack| - 1] := info[stack[|stack| - 1]].(min := m)], k, root,
                            work[..|work| - 1], stack[..|stack| - 1])
  {
    hide Carried, Parented, UsedBelow;
    var I := stack[|stack| - 1];
    TopSeen(info, k, work, stack, pos);
    if |work| > 1 { TopIsUsedBelow(p, work, stack, pos); }
    var info', work', stack' := info[I := info[I].(min := m)], work[..|work| - 1], stack[..|stack| - 1];
    FinishedAfterPop(info, k, work, I, m);
    forall d | Finished(info', k, work', d)
      ensures if work' == [] then info'[root].min >= init[d].min else Carried(p, info', k, work', stack', init[d].min)
    {
      if d != I {
        CarriedAfterFinish(p, info, k, work, stack, pos, m, init[d].min);
      } else if |work| > 1 {
        CarriedByTop(p, info, k, work, stack, pos, m, init[d].min);
      }
    }
  }

  /** The stack's top leaves both lists with its minimum raised to its operands'. */
  lemma FinishNode(p: Program, init: InfoMap, info: InfoMap, k: nat, root: Id, work: seq<Value>, stack: seq<Id>,
                   pos: seq<nat>, m: nat, info': InfoMap)
    requires MinInv(p, init, info, k, root, work, stack, pos, {})
    requires work != [] && stack != [] && |pos| == |stack| && pos[|pos| - 1] == |work| - 1
    requires stack[|stack| - 1] in info && info' == info[stack[|stack| - 1] := info[stack[|stack| - 1]].(min := m)]
    requires m >= info[stack[|stack| - 1]].min && Attained(init, k, m)
    requires forall y | Edge(p, stack[|stack| - 1], y) :: y in info && info[y].min <= m
    ensures MinInv(p, init, info', k, root, work[..|work| - 1], stack[..|stack| - 1], pos[..|pos| - 1], {})
  {
    hide FinishedSeen, FinishedCarried, Parented, OperandsSeen, Attained, Edge;
    var I := stack[|stack| - 1];
    assert work[|work| - 1] == Ref(I) && I in stack;
    WorkOkPop(info, k, work, stack, pos, m);
    ParentedPop(p, work, stack, pos);
    FinishSeen(p, info, k, work, I, m);
    FinishCarried(p, init, info, k, root, work, stack, pos, m);
    StackOkStays(p, info, info', k, stack, stack[..|stack| - 1], {});
  }

  // ----- reading the invariant off -----

  ghost function UnseenInfo(info: InfoMap, k: nat): set<Id> {
    set d | d in info && info[d].valid != k
  }

  lemma MinTopOf(p: Program, init: InfoMap, info: InfoMap, k: nat, root: Id, work: seq<Value>, stack: seq<Id>,
                 pos: seq<nat>)
    requires MinInv(p, init, info, k, root, work, stack, pos, {}) && work != []
    ensures var last := |work| - 1;
            work[last].Ref? && Seen(info, k, work[last].id) && |pos| == |stack| <= |work|
            && Attained(init, k, info[work[last].id].min)
            && if stack != [] && stack[|stack| - 1] == work[last].id
               then pos[|pos| - 1] == last && OperandsSeen(p, info, k, work[last].id)
               else |stack| < |work| && forall j | 0 <= j < |pos| :: pos[j] < last
  {
    hide FinishedSeen, FinishedCarried, Parented, Attained, OperandsSeen;
    MinTop(p, info, k, work, stack, pos);
    if stack != [] { assert stack[|stack| - 1] in stack; }
  }

  lemma OperandsInfo(p: Program, init: InfoMap, info: InfoMap, k: nat, root: Id, work: seq<Value>, stack: seq<Id>,
                     pos: seq<nat>, I: Id)
    requires MinInv(p, init, info, k, root, work, stack, pos, {}) && OperandsSeen(p, info, k, I)
    ensures forall y | Edge(p, I, y) :: y in info && Attained(init, k, info[y].min)
  {
    hide FinishedSeen, FinishedCarried, Parented, StackOk, WorkOk, Attained;
  }

  lemma ValidIsZeroOrK(p: Program, init: InfoMap, info: InfoMap, k: nat, root: Id, work: seq<Value>, stack: seq<Id>,
                       pos: seq<nat>, partial: set<Id>, y: Id)
    requires MinInv(p, init, info, k, root, work, stack, pos, partial) && y in info
    ensures k >= 1 && (info[y].valid == 0 || info[y].valid == k)
  {
  }

  lemma OperandBounds(p: Program, info: InfoMap, I: Id, m: nat)
    requires I in p
    requires forall i | 0 <= i < |Relevant(p[I])| && Relevant(p[I])[i].Ref? ::
               Relevant(p[I])[i].id in info && info[Relevant(p[I])[i].id].min <= m
    ensures forall y | Edge(p, I, y) :: y in info && info[y].min <= m
  {
  }

  lemma AllSeen(p: Program, info: InfoMap, k: nat, I: Id)
    requires I in p
    requires forall i | 0 <= i < |Relevant(p[I])| && Relevant(p[I])[i].Ref? :: Seen(info, k, Relevant(p[I])[i].id)
    ensures OperandsSeen(p, info, k, I)
  {
  }

  /** The requirement table is all that a finished walk leaves behind. */
  lemma MinTables(p: Program, init: InfoMap, info: InfoMap, k: nat, root: Id, work: seq<Value>, stack: seq<Id>,
                  pos: seq<nat>)
    requires MinInv(p, init, info, k, root, work, stack, pos, {})
    ensures info.Keys == init.Keys && forall d | d in info :: info[d].newValue == init[d].newValue
  {
  }

  /** When the worklist runs out the root's minimum is the maximum of all requirements. */
  lemma MinIsExact(p: Program, init: InfoMap, info: InfoMap, k: nat, root: Id, stack: seq<Id>, pos: seq<nat>)
    requires MinInv(p, init, info, k, root, [], stack, pos, {})
    requires forall id | id in init :: Reaches(p, root, id)
    ensures root in info && info[root].min >= k && Attained(init, k, info[root].min)
    ensures forall d | d in init :: init[d].min <= info[root].min
  {
    hide Carried;
    var seen := set x | x in info && Seen(info, k, x);
    forall x, y | x in seen && Edge(p, x, y) ensures y in seen {
      assert Finished(info, k, [], x);
    }
    forall d | d in init ensures init[d].min <= info[root].min {
      var path :| PathTo(p, path, root, d);
      ReachesStaysIn(p, root, path, d, seen);
      assert Finished(info, k, [], d);
    }
  }
}
