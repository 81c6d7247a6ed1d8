/** Which truncs the pass reduces, and to which width. */
module TruncChoice {
  import opened Collections
  import opened Ir
  import opened TruncDag
  import opened MinWidthWalk
  import opened TruncRewrite
  import opened TruncErase
  import opened TruncBest

  // ----- data layout -----

  predicate IsLegal(legal: seq<nat>, w: nat) { w in legal }

  /** The first legal width, in the layout's order, that holds w bits. */
  function SmallestLegal(legal: seq<nat>, w: nat): (r: Option<nat>)
    ensures r.Some? ==> r.value >= w && r.value in legal
    ensures r.None? ==> forall l | l in legal :: l < w
  {
    if legal == [] then None
    else if w <= legal[0] then Some(legal[0])
    else assert legal == [legal[0]] + legal[1..]; SmallestLegal(legal[1..], w)
  }

  /** The width settled on for a dag that needs `w` bits below a trunc from `orig` to `k`. */
  function ChosenWidth(legal: seq<nat>, w: nat, k: nat, orig: nat): nat {
    if w > k then
      match SmallestLegal(legal, w)
      case Some(l) => l
      case None => orig
    else if (w == 1 || IsLegal(legal, orig)) && !(w == 1 || IsLegal(legal, w)) then orig
    else w
  }

  /** The trunc's width and every node's requirement, whichever is largest. */
  ghost predicate IsMaxRequirement(init: InfoMap, k: nat, w: nat) {
    w >= k && Attained(init, k, w) && forall d | d in init :: init[d].min <= w
  }

  lemma MaxIsRequirement(init: InfoMap, k: nat, w: nat)
    requires w >= k && Attained(init, k, w) && forall d | d in init :: init[d].min <= w
    ensures IsMaxRequirement(init, k, w)
  {
  }

  lemma RaisingUnseen(before: InfoMap, info: InfoMap, I: Id, k: nat)
    requires I in before && I in info && info == before[I := info[I]] && info[I].valid == before[I].valid
    ensures UnseenInfo(info, k) == UnseenInfo(before, k)
  {
  }

  lemma SeenIsValid(info: InfoMap, k: nat, I: Id)
    requires Seen(info, k, I)
    ensures I in info && info[I].valid == k
  {
  }

  /** A width chosen by the pass meets every node's side conditions and pays off. */
  lemma ChoiceIsGood(o: Oracle, p: Program, t: Id, keys: seq<Id>, needs: InfoMap, legal: seq<nat>, desired: nat,
                     width: nat, w: nat)
    requires WellTyped(p) && t in p && p[t].Cast? && p[t].cop.Trunc? && IsDag(p, p[t].src, keys)
    requires needs.Keys == (set id | id in keys)
    requires forall I | I in keys :: I in needs && I in p &&
               needs[I].min == Requirement(o, p, t, WidthOf(p, p[t].src), p[I]) < WidthOf(p, p[t].src)
    requires forall I | I in keys && UsedOutside(p, t, keys, I) ::
             IsExt(p[I]) && WidthOf(p, p[I].src) == desired && desired != 0
    requires width < WidthOf(p, p[t].src) && (desired == 0 || desired == width)
    requires if p[t].src.Const? then width == p[t].width
             else
               IsMaxRequirement(needs, p[t].width, w)
               && width == ChosenWidth(legal, w, p[t].width, WidthOf(p, p[t].src))
    ensures Reducible(o, p, t, keys, width) && Profitable(p, t, keys, width)
  {
    hide UsedOutside, Requirement;
    var src, k := p[t].src, p[t].width;
    TypedAt(p, t);
    if src.Ref? {
      assert width >= w >= k;
      RootInDag(p, src, keys);
      assert Attained(needs, k, w);
    }
    forall I | I in keys ensures I in p && SideConditions(o, p, t, I, width) {
      DagWidth(p, src, keys, I);
      RequirementSuffices(o, p, t, I, width);
    }
    if width != k {
      assert w > k;
      var d :| d in needs && needs[d].min == w;
      if p[src.id].Cast? {
        LeafRoot(p, src.id, d);
        CastNeedsNothing(o, p, t, WidthOf(p, src), p[d]);
        assert false;
      }
    }
  }

  // ----- when a trunc is reduced, and to which width -----

  /** The largest requirement in the dag, and at least the trunc's width. */
  ghost predicate IsNeed(o: Oracle, p: Program, t: Id, keys: seq<Id>, w: nat)
    requires t in p && p[t].Cast?
  {
    var n := WidthOf(p, p[t].src);
    w >= p[t].width
    && (forall I | I in keys && I in p :: Requirement(o, p, t, n, p[I]) <= w)
    && (w == p[t].width || exists I :: I in keys && I in p && Requirement(o, p, t, n, p[I]) == w)
  }

  /** m is the width the dag `keys` below t is to be evaluated at. */
  ghost predicate Chosen(o: Oracle, p: Program, t: Id, keys: seq<Id>, legal: seq<nat>, m: nat)
    requires t in p && p[t].Cast?
  {
    var n := WidthOf(p, p[t].src);
    m < n
    && (forall I | I in keys && I in p :: Requirement(o, p, t, n, p[I]) < n)
    && (if p[t].src.Const? then m == p[t].width
        else exists w :: IsNeed(o, p, t, keys, w) && m == ChosenWidth(legal, w, p[t].width, n))
    && (forall I | I in keys && I in p && UsedOutside(p, t, keys, I) :: IsExt(p[I]) && WidthOf(p, p[I].src) == m)
  }

  /** There is no dag below t, or no width for it. */
  ghost predicate Rejected(o: Oracle, p: Program, t: Id, legal: seq<nat>)
    requires t in p && p[t].Cast?
  {
    forall ks: seq<Id>, m: nat | IsDag(p, p[t].src, ks) :: !Chosen(o, p, t, ks, legal, m)
  }

  /** Some name below u is a user of I outside the dag. */
  ghost predicate HasUserBelow(p: Program, t: Id, keys: seq<Id>, I: Id, u: nat) {
    exists w :: w < u && w in p && w != t && w !in keys && Uses(p[w], I)
  }

  lemma NoUser(p: Program, t: Id, keys: seq<Id>, I: Id)
    ensures !HasUserBelow(p, t, keys, I, 0)
  {
  }

  lemma NextUser(p: Program, t: Id, keys: seq<Id>, I: Id, u: nat)
    ensures HasUserBelow(p, t, keys, I, u + 1) <==>
            HasUserBelow(p, t, keys, I, u)
            || (u in p && u != t && u !in keys && Uses(p[u], I))
  {
    assert u in p && u != t && u !in keys && Uses(p[u], I) ==> HasUserBelow(p, t, keys, I, u + 1);
  }

  lemma AnyUser(p: Program, t: Id, keys: seq<Id>, I: Id, u: nat)
    requires u in p && u != t && u !in keys && Uses(p[u], I)
    ensures UsedOutside(p, t, keys, I)
  {
  }

  lemma AllUsers(p: Program, t: Id, keys: seq<Id>, I: Id, n: nat)
    requires forall id | id in p :: id < n
    ensures UsedOutside(p, t, keys, I) <==> HasUserBelow(p, t, keys, I, n)
  {
  }

  lemma SameMembers(p: Program, root: Value, a: seq<Id>, b: seq<Id>)
    requires IsDag(p, root, a) && IsDag(p, root, b)
    ensures forall I :: I in a <==> I in b
    ensures forall t: Id, I: Id :: UsedOutside(p, t, a, I) <==> UsedOutside(p, t, b, I)
    ensures forall I | I in a :: I in p
  {
    hide Reaches;
    forall t: Id, I: Id ensures UsedOutside(p, t, a, I) <==> UsedOutside(p, t, b, I) {
    }
  }

  lemma RejectUser(o: Oracle, p: Program, t: Id, legal: seq<nat>, keys: seq<Id>, I: Id, J: Id)
    requires t in p && p[t].Cast? && IsDag(p, p[t].src, keys)
    requires I in keys && UsedOutside(p, t, keys, I) && J in keys && UsedOutside(p, t, keys, J) && I in p && J in p
    requires !IsExt(p[I]) || (IsExt(p[J]) && WidthOf(p, p[I].src) != WidthOf(p, p[J].src))
    ensures Rejected(o, p, t, legal)
  {
    hide IsDag, UsedOutside, IsNeed;
    forall ks: seq<Id>, m: nat | IsDag(p, p[t].src, ks) ensures !Chosen(o, p, t, ks, legal, m) {
      SameMembers(p, p[t].src, keys, ks);
    }
  }

  lemma RejectNeed(o: Oracle, p: Program, t: Id, legal: seq<nat>, keys: seq<Id>, I: Id)
    requires t in p && p[t].Cast? && IsDag(p, p[t].src, keys) && I in keys && I in p
    requires Requirement(o, p, t, WidthOf(p, p[t].src), p[I]) >= WidthOf(p, p[t].src)
    ensures Rejected(o, p, t, legal)
  {
    hide IsDag, UsedOutside, IsNeed, Requirement;
    forall ks: seq<Id>, m: nat | IsDag(p, p[t].src, ks) ensures !Chosen(o, p, t, ks, legal, m) {
      SameMembers(p, p[t].src, keys, ks);
    }
  }

  /** The table of requirements gives the largest one. */
  lemma NeedFromTable(o: Oracle, p: Program, t: Id, keys: seq<Id>, needs: InfoMap, w: nat)
    requires t in p && p[t].Cast? && needs.Keys == (set id | id in keys)
    requires forall I | I in keys :: I in p && needs[I].min == Requirement(o, p, t, WidthOf(p, p[t].src), p[I])
    requires IsMaxRequirement(needs, p[t].width, w)
    ensures IsNeed(o, p, t, keys, w)
  {
    hide Requirement;
    forall I | I in keys ensures I in needs {
    }
    if w != p[t].width {
      var d :| d in needs && needs[d].min == w;
      assert d in keys;
    }
  }

  lemma NeedIsUnique(o: Oracle, p: Program, t: Id, keys: seq<Id>, ks: seq<Id>, w: nat, v: nat)
    requires t in p && p[t].Cast? && IsNeed(o, p, t, keys, w) && IsNeed(o, p, t, ks, v)
    requires forall I :: I in keys <==> I in ks
    ensures w == v
  {
    hide Requirement;
  }

  /** Only the width that follows from the need can be chosen. */
  lemma OnlyWidth(o: Oracle, p: Program, t: Id, legal: seq<nat>, keys: seq<Id>, ks: seq<Id>, w: nat, m: nat)
    requires t in p && p[t].Cast? && IsDag(p, p[t].src, keys) && IsDag(p, p[t].src, ks) && Chosen(o, p, t, ks, legal, m)
    requires p[t].src.Ref? ==> IsNeed(o, p, t, keys, w)
    ensures m == if p[t].src.Const? then p[t].width else ChosenWidth(legal, w, p[t].width, WidthOf(p, p[t].src))
  {
    hide IsDag, UsedOutside, IsNeed, Requirement;
    SameMembers(p, p[t].src, keys, ks);
    if p[t].src.Ref? {
      var v :| IsNeed(o, p, t, ks, v) && m == ChosenWidth(legal, v, p[t].width, WidthOf(p, p[t].src));
      NeedIsUnique(o, p, t, keys, ks, w, v);
    }
  }

  lemma RejectWidth(o: Oracle, p: Program, t: Id, legal: seq<nat>, keys: seq<Id>, w: nat, width: nat, desired: nat)
    requires t in p && p[t].Cast? && IsDag(p, p[t].src, keys)
    requires p[t].src.Ref? ==> IsNeed(o, p, t, keys, w)
    requires width == if p[t].src.Const? then p[t].width else ChosenWidth(legal, w, p[t].width, WidthOf(p, p[t].src))
    requires width >= WidthOf(p, p[t].src)
             || (desired != width && exists J ::
                 J in keys && J in p && UsedOutside(p, t, keys, J) && IsExt(p[J])
                 && WidthOf(p, p[J].src) == desired)
    ensures Rejected(o, p, t, legal)
  {
    hide IsDag, UsedOutside, IsNeed, Requirement, ChosenWidth;
    forall ks: seq<Id>, m: nat | IsDag(p, p[t].src, ks) ensures !Chosen(o, p, t, ks, legal, m) {
      SameMembers(p, p[t].src, keys, ks);
      if Chosen(o, p, t, ks, legal, m) {
        OnlyWidth(o, p, t, legal, keys, ks, w, m);
      }
    }
  }

  lemma CastNeedsNothing(o: Oracle, p: Program, t: Id, n: nat, ins: Instr)
    requires ins.Cast?
    ensures Requirement(o, p, t, n, ins) == 0
  {
  }

  lemma ChoiceIsChosen(o: Oracle, p: Program, t: Id, keys: seq<Id>, legal: seq<nat>, desired: nat, width: nat, w: nat)
    requires t in p && p[t].Cast? && width < WidthOf(p, p[t].src) && (desired == 0 || desired == width)
    requires p[t].src.Ref? ==> IsNeed(o, p, t, keys, w)
    requires width == if p[t].src.Const? then p[t].width else ChosenWidth(legal, w, p[t].width, WidthOf(p, p[t].src))
    requires forall I | I in keys && I in p :: Requirement(o, p, t, WidthOf(p, p[t].src), p[I]) < WidthOf(p, p[t].src)
    requires forall I | I in keys && UsedOutside(p, t, keys, I) ::
             I in p && IsExt(p[I]) && WidthOf(p, p[I].src) == desired && desired != 0
    ensures Chosen(o, p, t, keys, legal, width)
  {
    hide UsedOutside, IsNeed, Requirement, ChosenWidth;
  }

  predicate IsTrunc(p: Program, id: Id) { id in p && p[id].Cast? && p[id].cop.Trunc? }

  // ----- the same, read off the program -----

  /** Instruction x does arithmetic on the value of y; a select's condition does not count. */
  predicate WorksOn(p: Program, x: Id, y: Id) {
    x in p && match p[x]
              case Bin(_, _, a, b, _) => a == Ref(y) || b == Ref(y)
              case Select(_, a, b, _) => a == Ref(y) || b == Ref(y)
              case _ => false
  }

  /** `id` is what t truncates, or goes into it through arithmetic alone. */
  ghost predicate FeedsInto(p: Program, t: Id, id: Id)
    requires t in p && p[t].Cast?
  {
    exists path: seq<Id> :: path != [] && p[t].src == Ref(path[0]) && path[|path| - 1] == id && Working(p, path)
  }

  ghost predicate Working(p: Program, path: seq<Id>) {
    forall i | 0 < i < |path| :: WorksOn(p, path[i - 1], path[i])
  }

  ghost predicate AllAllow(o: Oracle, p: Program, t: Id, w: nat)
    requires t in p && p[t].Cast?
  {
    forall id | FeedsInto(p, t, id) && id in p :: BoundsAllow(o, p, t, WidthOf(p, p[t].src), p[id], w)
  }

  /** w is the least width, from the trunc's on and short of the original, that all bounds allow. */
  ghost predicate LeastAllowed(o: Oracle, p: Program, t: Id, w: nat)
    requires t in p && p[t].Cast?
  {
    p[t].width <= w < WidthOf(p, p[t].src) && AllAllow(o, p, t, w)
    && forall v | p[t].width <= v < w :: !AllAllow(o, p, t, v)
  }

  /** The first legal width, in the layout's order, that holds w bits. */
  predicate FirstLegal(legal: seq<nat>, w: nat, m: nat) {
    exists i :: 0 <= i < |legal| && legal[i] == m && m >= w && forall j | 0 <= j < i :: legal[j] < w
  }

  /** Starting from need w, the dag below t is evaluated at m: at w itself if that is the trunc's width,
      unless this means leaving a legal type for one that is not, or else at a legal width. */
  predicate Settles(legal: seq<nat>, w: nat, k: nat, n: nat, m: nat) {
    if w > k then FirstLegal(legal, w, m) else m == w && !(k != 1 && n in legal && k !in legal)
  }

  /** The dag below t may be evaluated at width m, and m is the width for it: only supported
      instructions go into it, the bounds settle m, and whatever has users elsewhere is an extension
      from m bits. */
  ghost predicate ReducesTo(o: Oracle, p: Program, t: Id, legal: seq<nat>, m: nat)
    requires t in p && p[t].Cast?
  {
    m < WidthOf(p, p[t].src)
    && (forall id | FeedsInto(p, t, id) :: id in p && !p[id].Opaque?)
    && (if p[t].src.Const? then m == p[t].width
        else exists w :: LeastAllowed(o, p, t, w) && Settles(legal, w, p[t].width, WidthOf(p, p[t].src), m))
    && forall id, u | FeedsInto(p, t, id) && u in p && u != t && !FeedsInto(p, t, u) && Ref(id) in AllOperands(p[u]) ::
         id in p && p[id].Cast? && !p[id].cop.Trunc? && WidthOf(p, p[id].src) == m
  }

  ghost predicate NoWidth(o: Oracle, p: Program, t: Id, legal: seq<nat>)
    requires t in p && p[t].Cast?
  {
    forall m :: !ReducesTo(o, p, t, legal, m)
  }

  /** The pass has something to do at t. */
  ghost predicate Improvable(o: Oracle, p: Program, t: Id, legal: seq<nat>) {
    IsTrunc(p, t) && !NoWidth(o, p, t, legal)
  }

  lemma OnlyTruncsImprove(o: Oracle, p: Program, legal: seq<nat>)
    ensures forall t | Improvable(o, p, t, legal) :: IsTrunc(p, t)
  {
  }

  lemma CurrentImproves(o: Oracle, p: Program, t: Id, legal: seq<nat>, width: Option<nat>)
    requires IsTrunc(p, t)
    requires width.Some? ==> ReducesTo(o, p, t, legal, width.value)
    requires width.None? ==> NoWidth(o, p, t, legal)
    ensures Improvable(o, p, t, legal) <==> width.Some?
  {
  }

  lemma WorksOnIsEdge(p: Program, x: Id, y: Id)
    ensures WorksOn(p, x, y) <==> Edge(p, x, y)
  {
    if x in p && p[x].Bin? { assert Relevant(p[x]) == [p[x].a, p[x].b]; }
    if x in p && p[x].Select? { assert Relevant(p[x]) == [p[x].a, p[x].b]; }
  }

  lemma BelowIsReached(p: Program, t: Id, id: Id)
    requires t in p && p[t].Cast?
    ensures FeedsInto(p, t, id) <==> p[t].src.Ref? && Reaches(p, p[t].src.id, id)
  {
    hide WorksOn, Edge;
    forall x, y ensures WorksOn(p, x, y) <==> Edge(p, x, y) { WorksOnIsEdge(p, x, y); }
    if FeedsInto(p, t, id) {
      var path :| path != [] && p[t].src == Ref(path[0]) && path[|path| - 1] == id && Working(p, path);
      assert PathTo(p, path, p[t].src.id, id);
    }
    if p[t].src.Ref? && Reaches(p, p[t].src.id, id) {
      var path :| PathTo(p, path, p[t].src.id, id);
      assert Working(p, path);
    }
  }

  lemma DagFeeds(p: Program, t: Id, keys: seq<Id>)
    requires t in p && p[t].Cast? && IsDag(p, p[t].src, keys)
    ensures forall id :: id in keys <==> FeedsInto(p, t, id)
    ensures forall id | id in keys :: id in p && !p[id].Opaque?
  {
    hide FeedsInto, Reaches;
    forall id ensures id in keys <==> FeedsInto(p, t, id) { BelowIsReached(p, t, id); }
  }

  lemma {:induction false} SmallestIsFirst(legal: seq<nat>, w: nat, m: nat)
    ensures SmallestLegal(legal, w) == Some(m) <==> FirstLegal(legal, w, m)
  {
    if legal != [] && !(w <= legal[0]) {
      SmallestIsFirst(legal[1..], w, m);
      if FirstLegal(legal[1..], w, m) {
        var i :| 0 <= i < |legal[1..]| && legal[1..][i] == m && m >= w && forall j | 0 <= j < i :: legal[1..][j] < w;
        assert legal[i + 1] == m;
        forall j | 0 <= j < i + 1 ensures legal[j] < w { if j > 0 { assert legal[1..][j - 1] < w; } }
      }
      if FirstLegal(legal, w, m) {
        var i :| 0 <= i < |legal| && legal[i] == m && m >= w && forall j | 0 <= j < i :: legal[j] < w;
        assert legal[1..][i - 1] == m;
        forall j | 0 <= j < i - 1 ensures legal[1..][j] < w { assert legal[j + 1] < w; }
      }
    } else if legal != [] {
      assert FirstLegal(legal, w, legal[0]);
      if FirstLegal(legal, w, m) {
        var i :| 0 <= i < |legal| && legal[i] == m && m >= w && forall j | 0 <= j < i :: legal[j] < w;
        assert i == 0;
      }
    }
  }

  lemma ChosenSettles(legal: seq<nat>, w: nat, k: nat, n: nat, m: nat)
    requires m < n && 1 <= k <= w
    ensures m == ChosenWidth(legal, w, k, n) <==> Settles(legal, w, k, n, m)
  {
    hide FirstLegal, SmallestLegal;
    SmallestIsFirst(legal, w, m);
  }

  /** The largest requirement is the least width that all bounds allow. */
  lemma NeedIsLeast(o: Oracle, p: Program, t: Id, keys: seq<Id>, w: nat)
    requires t in p && p[t].Cast? && IsDag(p, p[t].src, keys) && 1 <= p[t].width
    ensures IsNeed(o, p, t, keys, w) && w < WidthOf(p, p[t].src) <==> LeastAllowed(o, p, t, w)
  {
    hide IsDag, FeedsInto, Requirement, BoundsAllow;
    var n, k := WidthOf(p, p[t].src), p[t].width;
    DagFeeds(p, t, keys);
    forall I, v | I in keys && 1 <= v < n
      ensures I in p && (Requirement(o, p, t, n, p[I]) <= v <==> BoundsAllow(o, p, t, n, p[I], v))
    {
      RequirementIff(o, p, t, n, p[I], v);
    }
    if k <= w < n && AllAllow(o, p, t, w) && w > k && !AllAllow(o, p, t, w - 1) {
      var I :| FeedsInto(p, t, I) && I in p && !BoundsAllow(o, p, t, n, p[I], w - 1);
      assert Requirement(o, p, t, n, p[I]) == w;
    }
  }

  /** What the pass chooses is what the program's text and the oracle's bounds say. */
  lemma ChosenIff(o: Oracle, p: Program, t: Id, keys: seq<Id>, legal: seq<nat>, m: nat)
    requires WellTyped(p) && IsTrunc(p, t) && IsDag(p, p[t].src, keys)
    ensures Chosen(o, p, t, keys, legal, m) <==> ReducesTo(o, p, t, legal, m)
  {
    hide IsDag, FeedsInto, Requirement, IsNeed, LeastAllowed, Settles, ChosenWidth, UsedOutside;
    TypedAt(p, t);
    DagFeeds(p, t, keys);
    OutsideUsers(p, t, keys, m);
    var n, k := WidthOf(p, p[t].src), p[t].width;
    if p[t].src.Ref? && m < n {
      NeedBelow(o, p, t, keys, n);
      if w: nat :| IsNeed(o, p, t, keys, w) && m == ChosenWidth(legal, w, k, n) {
        NeedIsLeast(o, p, t, keys, w);
        ChosenSettles(legal, w, k, n, m);
      }
      if w: nat :| LeastAllowed(o, p, t, w) && Settles(legal, w, k, n, m) {
        NeedIsLeast(o, p, t, keys, w);
        assert k <= w by { AllowedFrom(o, p, t, w); }
        ChosenSettles(legal, w, k, n, m);
      }
    }
    if p[t].src.Const? {
      NothingBelow(p, t, keys);
    }
  }

  lemma AllowedFrom(o: Oracle, p: Program, t: Id, w: nat)
    requires t in p && p[t].Cast? && LeastAllowed(o, p, t, w)
    ensures p[t].width <= w
  {
  }

  lemma NothingBelow(p: Program, t: Id, keys: seq<Id>)
    requires t in p && p[t].Cast? && p[t].src.Const? && IsDag(p, p[t].src, keys)
    ensures forall I :: I !in keys
  {
  }

  /** A need below the original width means that every requirement is. */
  lemma NeedBelow(o: Oracle, p: Program, t: Id, keys: seq<Id>, n: nat)
    requires t in p && p[t].Cast?
    ensures forall w: nat | IsNeed(o, p, t, keys, w) ::
              p[t].width <= w && (p[t].width < WidthOf(p, p[t].src) ==>
              (w < WidthOf(p, p[t].src) <==>
               forall I | I in keys && I in p ::
                 Requirement(o, p, t, WidthOf(p, p[t].src), p[I]) < WidthOf(p, p[t].src)))
  {
    hide Requirement;
  }

  lemma OutsideUsers(p: Program, t: Id, keys: seq<Id>, m: nat)
    requires t in p && p[t].Cast? && forall id :: id in keys <==> FeedsInto(p, t, id)
    requires forall id | id in keys :: id in p
    ensures (forall I | I in keys && I in p && UsedOutside(p, t, keys, I) :: IsExt(p[I]) && WidthOf(p, p[I].src) == m)
       <==> forall id, u
              | FeedsInto(p, t, id) && u in p && u != t && !FeedsInto(p, t, u) && Ref(id) in AllOperands(p[u]) ::
              id in p && p[id].Cast? && !p[id].cop.Trunc? && WidthOf(p, p[id].src) == m
  {
    hide FeedsInto;
    forall id, u | FeedsInto(p, t, id) && u in p && u != t && !FeedsInto(p, t, u) && Ref(id) in AllOperands(p[u])
      ensures UsedOutside(p, t, keys, id)
    {
      assert Uses(p[u], id);
    }
  }

  /** With a dag, rejection means that there is no width to reduce to. */
  lemma RejectedMeans(o: Oracle, p: Program, t: Id, keys: seq<Id>, legal: seq<nat>)
    requires WellTyped(p) && IsTrunc(p, t) && IsDag(p, p[t].src, keys) && Rejected(o, p, t, legal)
    ensures NoWidth(o, p, t, legal)
  {
    hide IsDag, Chosen, ReducesTo;
    forall m ensures !ReducesTo(o, p, t, legal, m) { ChosenIff(o, p, t, keys, legal, m); }
  }

  /** An unsupported instruction below the trunc rules out every width. */
  lemma UnsupportedMeans(o: Oracle, p: Program, t: Id, legal: seq<nat>, id: Id)
    requires IsTrunc(p, t) && p[t].src.Ref? && Reaches(p, p[t].src.id, id) && !(id in p && Supported(p[id]))
    ensures NoWidth(o, p, t, legal)
  {
    hide FeedsInto, Reaches;
    BelowIsReached(p, t, id);
  }
}
