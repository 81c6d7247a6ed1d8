/** The expression dag below a trunc, and the invariants of the two explicit-stack walks over it. */
module TruncDag {
  import opened Collections
  import opened Ir

  /** What the pass records about a dag node. */
  datatype Info = Info(valid: nat, min: nat, newValue: Option<Value>)

  const NEW_INFO := Info(0, 0, None)

  predicate Supported(ins: Instr) { !ins.Opaque? }

  /** Casts are leaves; a select's condition is not part of the dag. */
  function Relevant(ins: Instr): seq<Value> {
    match ins
    case Bin(_, _, a, b, _) => [a, b]
    case Select(_, a, b, _) => [a, b]
    case _ => []
  }

  predicate Edge(p: Program, x: Id, y: Id) {
    x in p && Ref(y) in Relevant(p[x])
  }

  ghost predicate IsPath(p: Program, path: seq<Id>) {
    forall i | 0 < i < |path| :: Edge(p, path[i - 1], path[i])
  }

  ghost predicate PathTo(p: Program, path: seq<Id>, root: Id, id: Id) {
    path != [] && path[0] == root && path[|path| - 1] == id && IsPath(p, path)
  }

  ghost predicate Reaches(p: Program, root: Id, id: Id) {
    exists path :: PathTo(p, path, root, id)
  }

  lemma ReachesSelf(p: Program, root: Id)
    ensures Reaches(p, root, root)
  {
    assert PathTo(p, [root], root, root);
  }

  lemma ReachesStep(p: Program, root: Id, x: Id, y: Id)
    requires Reaches(p, root, x) && Edge(p, x, y)
    ensures Reaches(p, root, y)
  {
    var path :| PathTo(p, path, root, x);
    assert PathTo(p, path + [y], root, y);
  }

  lemma {:induction false} ReachesStaysIn(p: Program, root: Id, path: seq<Id>, id: Id, closed: set<Id>)
    requires PathTo(p, path, root, id)
    requires root in closed
    requires forall x, y | x in closed && Edge(p, x, y) :: y in closed
    ensures id in closed
    decreases |path|
  {
    if |path| > 1 {
      var prev := path[|path| - 2];
      assert Edge(p, path[|path| - 2], path[|path| - 1]);
      ReachesStaysIn(p, root, path[..|path| - 1], prev, closed);
    }
  }

  /** Every node of the dag has the root's width. */
  lemma {:induction false} ReachesWidth(p: Program, root: Id, path: seq<Id>, id: Id)
    requires WellTyped(p) && root in p
    requires PathTo(p, path, root, id)
    ensures id in p && p[id].width == p[root].width
    decreases |path|
  {
    if |path| > 1 {
      var prev := path[|path| - 2];
      assert Edge(p, path[|path| - 2], path[|path| - 1]);
      ReachesWidth(p, root, path[..|path| - 1], prev);
      assert InstrOk(p, p[prev]);
    }
  }

  ghost predicate OperandsFirst(p: Program, keys: seq<Id>) {
    forall i, y | 0 <= i < |keys| && Edge(p, keys[i], y) :: y in keys[..i]
  }

  /** `keys` lists exactly the instructions reachable from the root through relevant operands,
      each once, operands before users, all of a supported kind. */
  ghost predicate IsDag(p: Program, root: Value, keys: seq<Id>) {
    Distinct(keys) && OperandsFirst(p, keys)
    && (forall id :: id in keys <==> root.Ref? && Reaches(p, root.id, id))
    && (forall id | id in keys :: id in p && Supported(p[id]))
  }

  // ----- the walk's stack, embedded in its worklist -----

  /** Stack entry j sits at worklist index pos[j]. */
  ghost predicate Frames(work: seq<Value>, stack: seq<Id>, pos: seq<nat>) {
    |pos| == |stack|
    && (forall j | 0 <= j < |pos| :: pos[j] < |work| && work[pos[j]] == Ref(stack[j]))
    && (forall i, j | 0 <= i < j < |pos| :: pos[i] < pos[j])
  }

  /** Whatever lies above a stack entry in the worklist is ranked below it. */
  ghost predicate Descending(rank: map<Id, nat>, work: seq<Value>, stack: seq<Id>, pos: seq<nat>)
    requires Frames(work, stack, pos)
  {
    forall i, j | 0 <= j < |pos| && pos[j] < i < |work| && work[i].Ref? ::
      stack[j] in rank && work[i].id in rank && rank[work[i].id] < rank[stack[j]]
  }

  ghost predicate Handled(v: Value, work: seq<Value>, above: int, keys: seq<Id>) {
    v.Const? || v.id in keys || exists i | 0 <= i && above < i < |work| :: work[i] == v
  }

  /** The operands of a stack entry are constants, recorded already, or still above it. */
  ghost predicate Pending(p: Program, work: seq<Value>, stack: seq<Id>, pos: seq<nat>, keys: seq<Id>)
    requires Frames(work, stack, pos)
  {
    forall j, o | 0 <= j < |stack| && stack[j] in p && o in Relevant(p[stack[j]]) ::
      Handled(o, work, pos[j], keys)
  }

  ghost predicate Known(p: Program, root: Value, v: Value) {
    ValueOk(p, v) && (v.Ref? ==> root.Ref? && Reaches(p, root.id, v.id))
  }

  ghost predicate Recorded(p: Program, root: Value, keys: seq<Id>) {
    Distinct(keys) && OperandsFirst(p, keys)
    && forall id | id in keys :: id in p && Supported(p[id]) && root.Ref? && Reaches(p, root.id, id)
  }

  ghost predicate BuildInv(p: Program, rank: map<Id, nat>, root: Value, work: seq<Value>, stack: seq<Id>,
                           pos: seq<nat>, keys: seq<Id>) {
    && WellTyped(p) && Ranked(p, rank)
    && Frames(work, stack, pos)
    && Descending(rank, work, stack, pos)
    && Pending(p, work, stack, pos, keys)
    && (forall i | 0 <= i < |work| :: Known(p, root, work[i]))
    && Recorded(p, root, keys)
    && (forall s | s in stack :: s in p && Supported(p[s]) && s !in keys)
    && (if work != [] then work[0] == root else root.Const? || root.id in keys)
  }

  ghost function Unseen(p: Program, keys: seq<Id>, stack: seq<Id>): set<Id> {
    p.Keys - (set x | x in keys) - (set x | x in stack)
  }

  lemma UnseenAfterPop(p: Program, keys: seq<Id>, stack: seq<Id>)
    requires stack != []
    ensures Unseen(p, keys + [stack[|stack| - 1]], stack[..|stack| - 1]) == Unseen(p, keys, stack)
  {
    var stack', x := stack[..|stack| - 1], stack[|stack| - 1];
    assert stack == stack' + [x];
    assert (set y | y in keys + [x]) == (set y | y in keys) + {x};
    assert (set y | y in stack) == (set y | y in stack') + {x};
  }

  lemma UnseenAfterPush(p: Program, keys: seq<Id>, stack: seq<Id>, x: Id)
    requires x in p && x !in keys && x !in stack
    ensures Unseen(p, keys, stack + [x]) < Unseen(p, keys, stack)
  {
    assert x in Unseen(p, keys, stack);
    assert x in stack + [x];
  }

  /** The stack's top is the worklist's last entry exactly when the two hold the same instruction. */
  lemma TopIsLast(p: Program, rank: map<Id, nat>, root: Value, work: seq<Value>, stack: seq<Id>, pos: seq<nat>,
                  keys: seq<Id>)
    requires BuildInv(p, rank, root, work, stack, pos, keys)
    requires work != [] && work[|work| - 1].Ref?
    ensures |pos| == |stack| && work[|work| - 1].id in p
    ensures Known(p, root, work[|work| - 1])
    ensures stack != [] && stack[|stack| - 1] == work[|work| - 1].id ==> pos[|pos| - 1] == |work| - 1
    ensures !(stack != [] && stack[|stack| - 1] == work[|work| - 1].id) ==>
              work[|work| - 1].id !in stack && forall j | 0 <= j < |pos| :: pos[j] < |work| - 1
  {
    hide Pending, Recorded, WellTyped;
    var last := |work| - 1;
    assert Known(p, root, work[last]);
    if stack != [] && stack[|stack| - 1] == work[last].id {
    } else {
      forall j | 0 <= j < |pos| ensures pos[j] < last && stack[j] != work[last].id {
        if pos[j] == last { assert false; }
      }
    }
  }

  lemma BuildStart(p: Program, rank: map<Id, nat>, root: Value)
    requires WellTyped(p) && Ranked(p, rank) && ValueOk(p, root)
    ensures BuildInv(p, rank, root, [root], [], [], [])
  {
    if root.Ref? { ReachesSelf(p, root.id); }
  }


  lemma FramesPop(work: seq<Value>, stack: seq<Id>, pos: seq<nat>, n: nat)
    requires Frames(work, stack, pos) && work != [] && n <= |stack|
    requires forall j | 0 <= j < n :: pos[j] < |work| - 1
    ensures Frames(work[..|work| - 1], stack[..n], pos[..n])
  {
  }

  lemma DescendingPop(rank: map<Id, nat>, work: seq<Value>, stack: seq<Id>, pos: seq<nat>, n: nat)
    requires Frames(work, stack, pos) && Descending(rank, work, stack, pos) && work != [] && n <= |stack|
    requires Frames(work[..|work| - 1], stack[..n], pos[..n])
    ensures Descending(rank, work[..|work| - 1], stack[..n], pos[..n])
  {
  }

  lemma PendingPop(p: Program, work: seq<Value>, stack: seq<Id>, pos: seq<nat>, n: nat, keys: seq<Id>, keys': seq<Id>)
    requires Frames(work, stack, pos) && Pending(p, work, stack, pos, keys) && work != [] && n <= |stack|
    requires Frames(work[..|work| - 1], stack[..n], pos[..n])
    requires work[|work| - 1].Const? || work[|work| - 1].id in keys'
    requires keys <= keys'
    ensures Pending(p, work[..|work| - 1], stack[..n], pos[..n], keys')
  {
    var work' := work[..|work| - 1];
    forall j, o | 0 <= j < n && stack[j] in p && o in Relevant(p[stack[j]])
      ensures Handled(o, work', pos[j], keys')
    {
      assert Handled(o, work, pos[j], keys);
      if o.Ref? && o.id !in keys' {
        var i :| 0 <= i && pos[j] < i < |work| && work[i] == o;
        assert work'[i] == o;
      }
    }
  }

  /** Popping an entry that needs no work: a constant or a recorded instruction. */
  lemma PopHandled(p: Program, rank: map<Id, nat>, root: Value, work: seq<Value>, stack: seq<Id>, pos: seq<nat>,
                   keys: seq<Id>)
    requires BuildInv(p, rank, root, work, stack, pos, keys) && work != []
    requires work[|work| - 1].Const? || work[|work| - 1].id in keys
    ensures BuildInv(p, rank, root, work[..|work| - 1], stack, pos, keys)
  {
    hide Recorded, Known, Pending, Descending, WellTyped, Ranked, Reaches;
    var last := |work| - 1;
    forall j | 0 <= j < |pos| ensures pos[j] < last {
      assert stack[j] in stack;
      assert work[pos[j]] == Ref(stack[j]);
    }
    assert stack[..|stack|] == stack && pos[..|pos|] == pos;
    FramesPop(work, stack, pos, |stack|);
    DescendingPop(rank, work, stack, pos, |stack|);
    PendingPop(p, work, stack, pos, |stack|, keys, keys);
  }

  lemma RecordNode(p: Program, root: Value, keys: seq<Id>, I: Id)
    requires Recorded(p, root, keys)
    requires I in p && Supported(p[I]) && I !in keys && root.Ref? && Reaches(p, root.id, I)
    requires forall y | Edge(p, I, y) :: y in keys
    ensures Recorded(p, root, keys + [I])
  {
    var keys' := keys + [I];
    forall i, y | 0 <= i < |keys'| && Edge(p, keys'[i], y) ensures y in keys'[..i] {
      if i < |keys| {
        assert keys'[..i] == keys[..i];
      } else {
        assert keys'[..i] == keys;
      }
    }
  }

  lemma TopFacts(p: Program, rank: map<Id, nat>, root: Value, work: seq<Value>, stack: seq<Id>, pos: seq<nat>,
                 keys: seq<Id>)
    requires BuildInv(p, rank, root, work, stack, pos, keys)
    requires work != [] && stack != [] && pos[|pos| - 1] == |work| - 1
    ensures var I := stack[|stack| - 1];
            work[|work| - 1] == Ref(I) && Known(p, root, Ref(I)) && Supported(p[I]) && I !in keys
            && (forall j | 0 <= j < |stack| - 1 :: stack[j] != I && pos[j] < |work| - 1)
            && (forall y | Edge(p, I, y) :: y in keys)
  {
    hide Recorded, Known, Pending, Descending, WellTyped, Ranked;
    var last, top := |work| - 1, |stack| - 1;
    var I := stack[top];
    assert I in stack;
    assert work[pos[top]] == Ref(I) && Known(p, root, work[last]);
    TopIsNew(rank, work, stack, pos);
    TopOperandsRecorded(p, work, stack, pos, keys);
  }

  lemma TopIsNew(rank: map<Id, nat>, work: seq<Value>, stack: seq<Id>, pos: seq<nat>)
    requires Frames(work, stack, pos) && Descending(rank, work, stack, pos)
    requires work != [] && stack != [] && pos[|pos| - 1] == |work| - 1
    ensures forall j | 0 <= j < |stack| - 1 :: stack[j] != stack[|stack| - 1] && pos[j] < |work| - 1
  {
    var top := |stack| - 1;
    forall j | 0 <= j < top ensures stack[j] != stack[top] && pos[j] < |work| - 1 {
      assert pos[j] < pos[top];
      assert rank[stack[top]] < rank[stack[j]];
    }
  }

  lemma TopOperandsRecorded(p: Program, work: seq<Value>, stack: seq<Id>, pos: seq<nat>, keys: seq<Id>)
    requires Frames(work, stack, pos) && Pending(p, work, stack, pos, keys)
    requires work != [] && stack != [] && pos[|pos| - 1] == |work| - 1
    ensures forall y | Edge(p, stack[|stack| - 1], y) :: y in keys
  {
    forall y | Edge(p, stack[|stack| - 1], y) ensures y in keys {
      assert Handled(Ref(y), work, pos[|pos| - 1], keys);
    }
  }

  /** Popping a finished instruction off both lists and recording it. */
  lemma PopDone(p: Program, rank: map<Id, nat>, root: Value, work: seq<Value>, stack: seq<Id>, pos: seq<nat>,
                keys: seq<Id>)
    requires BuildInv(p, rank, root, work, stack, pos, keys)
    requires work != [] && stack != [] && pos[|pos| - 1] == |work| - 1
    ensures BuildInv(p, rank, root, work[..|work| - 1], stack[..|stack| - 1], pos[..|pos| - 1],
                     keys + [stack[|stack| - 1]])
  {
    hide Descending, Pending, Ranked, WellTyped, Edge, Recorded;
    var top := |stack| - 1;
    var I := stack[top];
    TopFacts(p, rank, root, work, stack, pos, keys);
    RecordNode(p, root, keys, I);
    FramesPop(work, stack, pos, top);
    DescendingPop(rank, work, stack, pos, top);
    PendingPop(p, work, stack, pos, top, keys, keys + [I]);
  }

  lemma DescendingPush(p: Program, rank: map<Id, nat>, work: seq<Value>, stack: seq<Id>, pos: seq<nat>, ops: seq<Value>)
    requires Frames(work, stack, pos) && Descending(rank, work, stack, pos)
    requires work != [] && work[|work| - 1].Ref? && work[|work| - 1].id in rank
    requires forall j | 0 <= j < |pos| :: pos[j] < |work| - 1
    requires forall o | o in ops && o.Ref? :: o.id in rank && rank[o.id] < rank[work[|work| - 1].id]
    ensures Frames(work + ops, stack + [work[|work| - 1].id], pos + [|work| - 1])
    ensures Descending(rank, work + ops, stack + [work[|work| - 1].id], pos + [|work| - 1])
  {
    var last := |work| - 1;
    var I := work[last].id;
    var work', stack', pos' := work + ops, stack + [I], pos + [last];
    assert Frames(work', stack', pos');
    forall i, j | 0 <= j < |pos'| && pos'[j] < i < |work'| && work'[i].Ref?
      ensures stack'[j] in rank && work'[i].id in rank && rank[work'[i].id] < rank[stack'[j]]
    {
      if i > last {
        assert work'[i] == ops[i - |work|] && ops[i - |work|] in ops;
        if j < |pos| { assert rank[I] < rank[stack[j]]; }
      }
    }
  }

  lemma PendingPush(p: Program, work: seq<Value>, stack: seq<Id>, pos: seq<nat>, keys: seq<Id>)
    requires Frames(work, stack, pos) && Pending(p, work, stack, pos, keys)
    requires work != [] && work[|work| - 1].Ref? && work[|work| - 1].id in p
    requires Frames(work + Relevant(p[work[|work| - 1].id]), stack + [work[|work| - 1].id], pos + [|work| - 1])
    ensures Pending(p, work + Relevant(p[work[|work| - 1].id]), stack + [work[|work| - 1].id], pos + [|work| - 1], keys)
  {
    var I := work[|work| - 1].id;
    var ops := Relevant(p[I]);
    var work', stack', pos' := work + ops, stack + [I], pos + [|work| - 1];
    forall j, o | 0 <= j < |stack'| && stack'[j] in p && o in Relevant(p[stack'[j]])
      ensures Handled(o, work', pos'[j], keys)
    {
      if j < |stack| {
        assert Handled(o, work, pos[j], keys);
        if o.Ref? && o.id !in keys {
          var i :| 0 <= i && pos[j] < i < |work| && work[i] == o;
          assert work'[i] == o;
        }
      } else {
        var i :| 0 <= i < |ops| && ops[i] == o;
        assert work'[|work| + i] == o;
      }
    }
  }

  lemma OperandsKnown(p: Program, rank: map<Id, nat>, root: Value, I: Id, o: Value)
    requires WellTyped(p) && Ranked(p, rank) && I in p && o in Relevant(p[I])
    requires root.Ref? && Reaches(p, root.id, I)
    ensures Known(p, root, o)
    ensures o.Ref? ==> o.id in rank && rank[o.id] < rank[I]
  {
    assert InstrOk(p, p[I]);
    assert o in Operands(p[I]);
    if o.Ref? { ReachesStep(p, root.id, I, o.id); }
  }

  /** Starting on an instruction: it goes on the stack, its operands on the worklist. */
  lemma PushOperands(p: Program, rank: map<Id, nat>, root: Value, work: seq<Value>, stack: seq<Id>, pos: seq<nat>,
                     keys: seq<Id>)
    requires BuildInv(p, rank, root, work, stack, pos, keys)
    requires work != [] && work[|work| - 1].Ref?
    requires forall j | 0 <= j < |pos| :: pos[j] < |work| - 1
    requires work[|work| - 1].id in p && work[|work| - 1].id !in keys && Supported(p[work[|work| - 1].id])
    ensures var I := work[|work| - 1].id;
            BuildInv(p, rank, root, work + Relevant(p[I]), stack + [I], pos + [|work| - 1], keys)
  {
    var last := |work| - 1;
    var I := work[last].id;
    assert Known(p, root, work[last]);
    var ops := Relevant(p[I]);
    forall o | o in ops
      ensures Known(p, root, o) && (o.Ref? ==> o.id in rank && rank[o.id] < rank[I])
    {
      OperandsKnown(p, rank, root, I, o);
    }
    DescendingPush(p, rank, work, stack, pos, ops);
    PendingPush(p, work, stack, pos, keys);
    forall i | 0 <= i < |work + ops| ensures Known(p, root, (work + ops)[i]) {
      if i >= |work| { assert (work + ops)[i] in ops; }
    }
  }

  /** An empty worklist means the recorded instructions are the whole dag. */
  lemma BuildIsExact(p: Program, rank: map<Id, nat>, root: Value, stack: seq<Id>, pos: seq<nat>, keys: seq<Id>)
    requires BuildInv(p, rank, root, [], stack, pos, keys)
    ensures IsDag(p, root, keys)
  {
    var closed := set x | x in keys;
    forall x, y | x in closed && Edge(p, x, y) ensures y in closed {
      var i :| 0 <= i < |keys| && keys[i] == x;
      assert y in keys[..i];
    }
    forall id | root.Ref? && Reaches(p, root.id, id) ensures id in keys {
      var path :| PathTo(p, path, root.id, id);
      ReachesStaysIn(p, root.id, path, id, closed);
    }
  }

  lemma DagClosedAt(p: Program, root: Value, keys: seq<Id>, x: Id)
    requires IsDag(p, root, keys) && x in keys
    ensures forall y | Edge(p, x, y) :: y in keys
  {
    forall y | Edge(p, x, y) ensures y in keys { ReachesStep(p, root.id, x, y); }
  }

  lemma DagMembers(p: Program, root: Value, keys: seq<Id>)
    requires IsDag(p, root, keys)
    ensures forall id | id in keys :: id in p && root.Ref? && Reaches(p, root.id, id)
  {
  }

  lemma OperandIsEdge(p: Program, x: Id, n: nat)
    requires x in p && n < |Relevant(p[x])| && Relevant(p[x])[n].Ref?
    ensures Edge(p, x, Relevant(p[x])[n].id)
  {
    assert Relevant(p[x])[n] == Ref(Relevant(p[x])[n].id);
  }

  lemma RootInDag(p: Program, root: Value, keys: seq<Id>)
    requires IsDag(p, root, keys) && root.Ref?
    ensures root.id in keys
  {
    ReachesSelf(p, root.id);
  }

  lemma DagWidth(p: Program, root: Value, keys: seq<Id>, id: Id)
    requires WellTyped(p) && root.Ref? && root.id in p && IsDag(p, root, keys) && id in keys
    ensures id in p && p[id].width == p[root.id].width
  {
    var path :| PathTo(p, path, root.id, id);
    ReachesWidth(p, root.id, path, id);
  }
}
