/** Which pointer arguments may be replaced by the values loaded through them. */
module PromotionSafety {
  import opened Collections
  import opened PrefixSet

  type Ty = nat

  /** A load in the entry block through the argument: directly, or through a GEP whose indices are
      constant or not. */
  datatype EntryLoad = Direct(ty: Ty) | Through(srcTy: Ty, indices: Option<Path>)

  /** What a GEP's users are; a load stands at a position in a block. */
  datatype GepUser = LoadOf(simple: bool, block: nat, at: nat) | NotALoad

  /** A use of the argument anywhere in the function. */
  datatype Use =
    | Load(simple: bool, ty: Ty, block: nat, at: nat)
    | Gep(srcTy: Ty, indices: Option<Path>, users: seq<GepUser>)
    | Other

  const ZERO_PATH: Path := [0]

  function EntryTy(e: EntryLoad): Ty { if e.Direct? then e.ty else e.srcTy }

  function EntryPath(e: EntryLoad): Path
    requires e.Through? ==> e.indices.Some?
  {
    if e.Direct? then ZERO_PATH else e.indices.value
  }

  /** Uses that need no look: GEPs nothing uses. */
  predicate Skipped(u: Use) { u.Gep? && u.users == [] }

  predicate IsSimpleLoad(g: GepUser) { g.LoadOf? && g.simple }

  predicate UseOk(u: Use) {
    match u
    case Load(simple, _, _, _) => simple
    case Gep(_, indices, users) => indices.Some? && forall g | g in users :: IsSimpleLoad(g)
    case Other => false
  }

  function UseTy(u: Use): Ty
    requires !u.Other?
  {
    if u.Load? then u.ty else u.srcTy
  }

  function UsePath(u: Use): Path
    requires UseOk(u)
  {
    if u.Load? then ZERO_PATH else u.indices.value
  }

  // ----- the loads behind the uses -----

  /** A load: where it stands, and the path from the argument to what it loads. */
  datatype LoadSite = LoadSite(block: nat, at: nat, path: Path)

  /** User `user` of use number `use`; a direct load counts as its own only user. */
  datatype Spot = Spot(use: nat, user: nat)

  predicate SpotLess(a: Spot, b: Spot) { a.use < b.use || (a.use == b.use && a.user < b.user) }

  /** There is a load at the spot, and it is s: directly of the argument, or of what a GEP leads to,
      which for the single index zero is the argument again. */
  predicate LoadIsAt(uses: seq<Use>, spot: Spot, s: LoadSite) {
    spot.use < |uses|
    && match uses[spot.use]
       case Load(_, _, block, at) => spot.user == 0 && s == LoadSite(block, at, [])
       case Gep(_, indices, users) =>
         spot.user < |users| && users[spot.user].LoadOf? && indices.Some?
         && s.block == users[spot.user].block && s.at == users[spot.user].at
         && s.path == (if indices.value == [0] then [] else indices.value)
       case Other => false
  }

  ghost predicate Rising(spots: seq<Spot>) {
    forall i, j | 0 <= i < j < |spots| :: SpotLess(spots[i], spots[j])
  }

  /** `loads` are all the loads, each from one spot, in the order of the uses and of their users. */
  ghost predicate Lists(uses: seq<Use>, loads: seq<LoadSite>, spots: seq<Spot>) {
    |spots| == |loads|
    && Rising(spots)
    && (forall i | 0 <= i < |loads| :: LoadIsAt(uses, spots[i], loads[i]))
    && (forall spot, s | LoadIsAt(uses, spot, s) :: spot in spots)
  }

  ghost predicate AllLoads(uses: seq<Use>, loads: seq<LoadSite>) {
    exists spots :: Lists(uses, loads, spots)
  }

  lemma ListsAt(uses: seq<Use>, loads: seq<LoadSite>, spots: seq<Spot>, spot: Spot, s: LoadSite) returns (i: nat)
    requires Lists(uses, loads, spots) && LoadIsAt(uses, spot, s)
    ensures i < |loads| && spots[i] == spot && loads[i] == s
  {
    i :| 0 <= i < |spots| && spots[i] == spot;
  }

  lemma FirstIn(y: seq<Spot>)
    ensures y == [] || exists s :: s in y
  {
    if y != [] { assert y[0] in y; }
  }

  lemma {:induction false} RisingIsUnique(x: seq<Spot>, y: seq<Spot>)
    requires Rising(x) && Rising(y) && forall s :: s in x <==> s in y
    ensures x == y
    decreases |x|
  {
    if x == [] {
      FirstIn(y);
    } else {
      assert x[|x| - 1] in x;
      var m, n := |x| - 1, |y| - 1;
      var i :| 0 <= i <= n && y[i] == x[m];
      assert y[n] in y;
      var j :| 0 <= j <= m && x[j] == y[n];
      assert x[m] == y[n];
      forall s ensures s in x[..m] <==> s in y[..n] {
        assert s in x <==> s in x[..m] || s == x[m];
        assert s in y <==> s in y[..n] || s == y[n];
      }
      RisingIsUnique(x[..m], y[..n]);
    }
  }

  /** There is only one such list. */
  lemma AllLoadsIsUnique(uses: seq<Use>, a: seq<LoadSite>, b: seq<LoadSite>)
    requires AllLoads(uses, a) && AllLoads(uses, b)
    ensures a == b
  {
    var x :| Lists(uses, a, x);
    var y :| Lists(uses, b, y);
    SameSpots(uses, a, b, x, y);
    SameSpots(uses, b, a, y, x);
    RisingIsUnique(x, y);
  }

  lemma SameSpots(uses: seq<Use>, a: seq<LoadSite>, b: seq<LoadSite>, x: seq<Spot>, y: seq<Spot>)
    requires Lists(uses, a, x) && Lists(uses, b, y)
    ensures forall s | s in x :: s in y
  {
    forall s | s in x ensures s in y {
      var i :| 0 <= i < |x| && x[i] == s;
      assert LoadIsAt(uses, x[i], a[i]);
    }
  }

  // ----- collecting the loads -----

  /** A single zero index leads to the pointer itself. */
  function Place(p: Path): Path { if p == ZERO_PATH then [] else p }

  function GepSites(users: seq<GepUser>, path: Path): seq<LoadSite> {
    if users == [] then []
    else
      var g := users[|users| - 1];
      GepSites(users[..|users| - 1], path) + if g.LoadOf? then [LoadSite(g.block, g.at, path)] else []
  }

  function Sites(u: Use): seq<LoadSite> {
    match u
    case Load(_, _, block, at) => [LoadSite(block, at, Place(ZERO_PATH))]
    case Gep(_, indices, users) => if indices.Some? then GepSites(users, Place(indices.value)) else []
    case Other => []
  }

  function LoadsOf(uses: seq<Use>): seq<LoadSite> {
    if uses == [] then [] else LoadsOf(uses[..|uses| - 1]) + Sites(uses[|uses| - 1])
  }

  /** The spots of a GEP's loads among its first k users. */
  ghost predicate ListsUsers(uses: seq<Use>, n: nat, k: nat, sites: seq<LoadSite>, spots: seq<Spot>) {
    |spots| == |sites| && Rising(spots)
    && (forall i | 0 <= i < |spots| :: LoadIsAt(uses, spots[i], sites[i]) && spots[i].use == n && spots[i].user < k)
    && (forall spot, s | LoadIsAt(uses, spot, s) && spot.use == n && spot.user < k :: spot in spots)
  }

  lemma OneMoreUser(uses: seq<Use>, n: nat, k: nat, sites: seq<LoadSite>, spots: seq<Spot>, s: LoadSite)
    requires ListsUsers(uses, n, k, sites, spots) && LoadIsAt(uses, Spot(n, k), s)
    ensures ListsUsers(uses, n, k + 1, sites + [s], spots + [Spot(n, k)])
  {
    hide LoadIsAt;
    var more := spots + [Spot(n, k)];
    assert more[|spots|] == Spot(n, k);
  }

  lemma NotOneMoreUser(uses: seq<Use>, n: nat, k: nat, sites: seq<LoadSite>, spots: seq<Spot>)
    requires ListsUsers(uses, n, k, sites, spots) && forall s :: !LoadIsAt(uses, Spot(n, k), s)
    ensures ListsUsers(uses, n, k + 1, sites, spots)
  {
    hide LoadIsAt;
    forall spot, s | LoadIsAt(uses, spot, s) && spot.use == n && spot.user < k + 1 ensures spot in spots {
      assert spot.user == k ==> spot == Spot(n, k);
    }
  }

  lemma {:induction false} GepSpots(uses: seq<Use>, n: nat, k: nat) returns (spots: seq<Spot>)
    requires n < |uses| && uses[n].Gep? && uses[n].indices.Some? && k <= |uses[n].users|
    ensures ListsUsers(uses, n, k, GepSites(uses[n].users[..k], Place(uses[n].indices.value)), spots)
  {
    var users, place := uses[n].users, Place(uses[n].indices.value);
    if k == 0 {
      spots := [];
    } else {
      assert users[..k][..k - 1] == users[..k - 1];
      var sites := GepSites(users[..k - 1], place);
      spots := GepSpots(uses, n, k - 1);
      var g := users[k - 1];
      if g.LoadOf? {
        OneMoreUser(uses, n, k - 1, sites, spots, LoadSite(g.block, g.at, place));
        spots := spots + [Spot(n, k - 1)];
      } else {
        NotOneMoreUser(uses, n, k - 1, sites, spots);
      }
    }
  }

  lemma {:induction false} UseSpots(uses: seq<Use>, n: nat) returns (spots: seq<Spot>)
    requires n < |uses|
    ensures |spots| == |Sites(uses[n])| && (forall i | 0 <= i < |spots| :: LoadIsAt(uses, spots[i], Sites(uses[n])[i]))
    ensures forall i | 0 <= i < |spots| :: spots[i].use == n
    ensures Rising(spots)
    ensures forall spot, s | LoadIsAt(uses, spot, s) && spot.use == n :: spot in spots
  {
    match uses[n]
    case Load(_, _, _, _) =>
      spots := [Spot(n, 0)];
    case Gep(_, indices, users) =>
      assert users[..|users|] == users;
      if indices.Some? { spots := GepSpots(uses, n, |users|); } else { spots := []; }
    case Other => spots := [];
  }

  ghost predicate ListsFirst(uses: seq<Use>, n: nat, loads: seq<LoadSite>, spots: seq<Spot>) {
    |spots| == |loads| && Rising(spots)
    && (forall i | 0 <= i < |loads| :: LoadIsAt(uses, spots[i], loads[i]) && spots[i].use < n)
    && (forall spot, s | LoadIsAt(uses, spot, s) && spot.use < n :: spot in spots)
  }

  lemma ListsMore(uses: seq<Use>, n: nat, loads: seq<LoadSite>, spots: seq<Spot>, sites: seq<LoadSite>, more: seq<Spot>)
    requires ListsFirst(uses, n, loads, spots)
    requires |more| == |sites| && Rising(more)
    requires forall i | 0 <= i < |more| :: LoadIsAt(uses, more[i], sites[i]) && more[i].use == n
    requires forall spot, s | LoadIsAt(uses, spot, s) && spot.use == n :: spot in more
    ensures ListsFirst(uses, n + 1, loads + sites, spots + more)
  {
    hide LoadIsAt;
  }

  lemma {:induction false} SpotsUpTo(uses: seq<Use>, n: nat) returns (spots: seq<Spot>)
    requires n <= |uses|
    ensures ListsFirst(uses, n, LoadsOf(uses[..n]), spots)
  {
    hide Sites, LoadIsAt;
    if n == 0 {
      spots := [];
    } else {
      LoadsOfMore(uses, n - 1);
      spots := SpotsUpTo(uses, n - 1);
      var more := UseSpots(uses, n - 1);
      ListsMore(uses, n - 1, LoadsOf(uses[..n - 1]), spots, Sites(uses[n - 1]), more);
      spots := spots + more;
    }
  }

  /** What is collected is every load, once, in order. */
  lemma {:induction false} LoadsOfLists(uses: seq<Use>)
    ensures AllLoads(uses, LoadsOf(uses))
  {
    assert uses[..|uses|] == uses;
    var spots := SpotsUpTo(uses, |uses|);
    assert Lists(uses, LoadsOf(uses), spots);
  }

  lemma LoadsOfMore(uses: seq<Use>, i: nat)
    requires i < |uses|
    ensures LoadsOf(uses[..i + 1]) == LoadsOf(uses[..i]) + Sites(uses[i])
  {
    assert uses[..i + 1][..i] == uses[..i];
  }

  // ----- the reference definition -----

  /** The type the accesses are checked against: the byval type, or that of the first access. */
  function BaseType(byVal: Option<Ty>, entry: seq<EntryLoad>, uses: seq<Use>): Option<Ty> {
    if byVal.Some? then byVal
    else if entry != [] then Some(EntryTy(entry[0]))
    else FirstUseType(uses)
  }

  function FirstUseType(uses: seq<Use>): Option<Ty> {
    if uses == [] || uses[0].Other? then None
    else if Skipped(uses[0]) then FirstUseType(uses[1..])
    else Some(UseTy(uses[0]))
  }

  /** Whether a load through the pointer itself is good in every caller. */
  predicate AlwaysGood(byVal: Option<Ty>, base: Option<Ty>, callersValid: Ty -> bool) {
    byVal.Some? || (base.Some? && callersValid(base.value))
  }

  predicate EntryOk(e: EntryLoad) { e.Through? ==> e.indices.Some? }

  /** The path may be loaded in every caller: the pointer is always good there, or the entry block
      loads one of the path's prefixes anyway. */
  ghost predicate SafePath(good: bool, entry: seq<EntryLoad>, p: Path) {
    (good && IsPrefix(ZERO_PATH, p)) || exists e :: e in entry && EntryOk(e) && IsPrefix(EntryPath(e), p)
  }

  function UsedPaths(uses: seq<Use>): set<Path> {
    set u | u in uses && !Skipped(u) && UseOk(u) :: UsePath(u)
  }

  ghost predicate EntryAccepted(base: Option<Ty>, entry: seq<EntryLoad>) {
    forall e | e in entry :: EntryOk(e) && base == Some(EntryTy(e))
  }

  ghost predicate UseAccepted(good: bool, base: Option<Ty>, entry: seq<EntryLoad>, u: Use) {
    Skipped(u) || (UseOk(u) && base == Some(UseTy(u)) && SafePath(good, entry, UsePath(u)))
  }

  /** Every access is a plain load at constant indices, all of one type, each known to be safe in
      every caller, and there are not too many different ones. */
  ghost predicate Accepted(byVal: Option<Ty>, entry: seq<EntryLoad>, uses: seq<Use>, callersValid: Ty -> bool,
                           max: nat) {
    var base := BaseType(byVal, entry, uses);
    var good := AlwaysGood(byVal, base, callersValid);
    EntryAccepted(base, entry) && (forall u | u in uses :: UseAccepted(good, base, entry, u))
    && (max > 0 ==> |UsedPaths(uses)| <= max)
  }

  // ----- the pass -----

  lemma SafePathMore(good: bool, entry: seq<EntryLoad>, e: EntryLoad, q: Path)
    requires EntryOk(e)
    ensures SafePath(good, entry + [e], q) <==> SafePath(good, entry, q) || IsPrefix(EntryPath(e), q)
  {
    if IsPrefix(EntryPath(e), q) { assert e in entry + [e]; }
    if SafePath(good, entry, q) && !(good && IsPrefix(ZERO_PATH, q)) {
      var f :| f in entry && EntryOk(f) && IsPrefix(EntryPath(f), q);
      assert f in entry + [e];
    }
  }

  lemma {:induction false} FirstUseTypeOfPrefix(uses: seq<Use>, i: nat)
    requires i <= |uses|
    ensures FirstUseType(uses[..i]).Some? ==> FirstUseType(uses) == FirstUseType(uses[..i])
  {
    if i > 0 {
      assert uses[..i][1..] == uses[1..][..i - 1];
      if Skipped(uses[0]) { FirstUseTypeOfPrefix(uses[1..], i - 1); }
    }
  }

  lemma {:induction false} FirstUseTypeNext(uses: seq<Use>, i: nat)
    requires i < |uses| && forall u | u in uses[..i] :: !u.Other?
    ensures FirstUseType(uses[..i + 1]) ==
            if FirstUseType(uses[..i]).Some? then FirstUseType(uses[..i])
            else if Skipped(uses[i]) || uses[i].Other? then None
            else Some(UseTy(uses[i]))
  {
    if i == 0 {
      assert uses[..1][1..] == [];
    } else {
      assert uses[0] in uses[..i];
      assert uses[..i + 1][1..] == uses[1..][..i] && uses[..i][1..] == uses[1..][..i - 1];
      forall u | u in uses[1..][..i - 1] ensures !u.Other? { assert u in uses[..i]; }
      FirstUseTypeNext(uses[1..], i - 1);
    }
  }

  lemma UsedPathsMore(uses: seq<Use>, i: nat)
    requires i < |uses|
    ensures UsedPaths(uses[..i + 1])
         == UsedPaths(uses[..i]) + if !Skipped(uses[i]) && UseOk(uses[i]) then {UsePath(uses[i])} else {}
    ensures UsedPaths(uses[..i + 1]) <= UsedPaths(uses)
  {
    assert uses[..i + 1] == uses[..i] + [uses[i]];
    assert uses[i] in uses[..i + 1];
    forall u | u in uses[..i + 1] ensures u in uses { }
  }

  class PromotionCheck {
    const byVal: Option<Ty>
    const callersValid: Ty -> bool
    const maxElements: nat
    const safe: SafePaths
    var baseTy: Option<Ty>

    constructor (byVal: Option<Ty>, callersValid: Ty -> bool, maxElements: nat)
      ensures fresh(safe) && this.byVal == byVal && this.callersValid == callersValid && this.maxElements == maxElements
      ensures baseTy == byVal && safe.Valid()
      ensures byVal.None? ==> safe.elems == []
      ensures forall q :: Covers(safe.elems, q) <==> SafePath(AlwaysGood(byVal, baseTy, callersValid), [], q)
    {
      this.byVal, this.callersValid, this.maxElements := byVal, callersValid, maxElements;
      baseTy := byVal;
      safe := new SafePaths();
      new;
      if byVal.Some? {
        safe.InsertFirst(ZERO_PATH);
      }
    }

    ghost predicate Knows(entry: seq<EntryLoad>)
      reads this, safe
    {
      safe.Valid() && (baseTy.None? ==> safe.elems == [] && entry == [])
      && (byVal.Some? ==> baseTy == byVal)
      && forall q :: Covers(safe.elems, q) <==> SafePath(AlwaysGood(byVal, baseTy, callersValid), entry, q)
    }

    /** The first access fixes the type; every later one must agree with it. */
    method UpdateBaseTy(newTy: Ty, ghost entry: seq<EntryLoad>) returns (ok: bool)
      requires Knows(entry)
      modifies this`baseTy, safe
      ensures Knows(entry)
      ensures baseTy == if old(baseTy).Some? then old(baseTy) else Some(newTy)
      ensures ok <==> baseTy == Some(newTy)
    {
      if baseTy.Some? {
        return baseTy == Some(newTy);
      }
      baseTy := Some(newTy);
      if callersValid(newTy) {
        safe.InsertFirst(ZERO_PATH);
      }
      return true;
    }

    /** Entry-block loads make their paths safe; a non-constant index or a second type gives up. */
    method SurveyEntry(entry: seq<EntryLoad>) returns (ok: bool)
      requires Knows([]) && baseTy == byVal
      modifies this`baseTy, safe
      ensures ok ==> Knows(entry) && baseTy == BaseType(byVal, entry, []) && EntryAccepted(baseTy, entry)
      ensures !ok ==> forall uses :: !EntryAccepted(BaseType(byVal, entry, uses), entry)
    {
      hide SafePath, EntryAccepted, Covers, IsPrefix;
      NothingAccepted(baseTy);
      assert entry[..0] == [];
      for i := 0 to |entry|
        invariant Knows(entry[..i]) && baseTy == BaseType(byVal, entry[..i], []) && EntryAccepted(baseTy, entry[..i])
      {
        var e := entry[i];
        assert entry[..i + 1] == entry[..i] + [e];
        assert i > 0 ==> entry[..i][0] == entry[0] && entry[..i + 1][0] == entry[0];
        ghost var before := safe.elems;
        if e.Through? && e.indices.None? {
          BadEntry(entry, i);
          return false;
        }
        if e.Direct? {
          ghost var known := baseTy;
          safe.MarkIndicesSafe(ZERO_PATH);
          if baseTy.Some? && e.ty != baseTy.value {
            MixedEntry(byVal, entry, i, baseTy);
            return false;
          }
          baseTy := Some(e.ty);
          forall q
            ensures Covers(safe.elems, q) <==> SafePath(AlwaysGood(byVal, baseTy, callersValid), entry[..i + 1], q)
          {
            SafePathMore(AlwaysGood(byVal, baseTy, callersValid), entry[..i], e, q);
            ZeroPathEitherWay(AlwaysGood(byVal, baseTy, callersValid), AlwaysGood(byVal, known, callersValid),
                              entry[..i], q);
          }
        } else {
          var agrees := UpdateBaseTy(e.srcTy, entry[..i]);
          if !agrees {
            MixedEntry(byVal, entry, i, baseTy);
            return false;
          }
          safe.MarkIndicesSafe(e.indices.value);
          forall q
            ensures Covers(safe.elems, q) <==> SafePath(AlwaysGood(byVal, baseTy, callersValid), entry[..i + 1], q)
          {
            SafePathMore(AlwaysGood(byVal, baseTy, callersValid), entry[..i], e, q);
          }
        }
        AcceptEntry(baseTy, entry[..i], e);
      }
      assert entry[..|entry|] == entry;
      return true;
    }

    lemma NothingAccepted(base: Option<Ty>)
      ensures EntryAccepted(base, [])
    {
    }

    lemma BadEntry(entry: seq<EntryLoad>, i: nat)
      requires i < |entry| && !EntryOk(entry[i])
      ensures forall base :: !EntryAccepted(base, entry)
    {
      assert entry[i] in entry;
    }

    lemma MixedEntry(byVal: Option<Ty>, entry: seq<EntryLoad>, i: nat, base: Option<Ty>)
      requires i < |entry| && base.Some? && base != Some(EntryTy(entry[i]))
      requires base == BaseType(byVal, entry[..i], [])
      ensures forall uses :: !EntryAccepted(BaseType(byVal, entry, uses), entry)
    {
      assert entry[i] in entry;
      assert i > 0 ==> entry[..i][0] == entry[0];
    }

    lemma ZeroPathEitherWay(g: bool, h: bool, entry: seq<EntryLoad>, q: Path)
      ensures (SafePath(g, entry, q) || IsPrefix(ZERO_PATH, q)) <==> (SafePath(h, entry, q) || IsPrefix(ZERO_PATH, q))
    {
    }

    lemma AcceptEntry(base: Option<Ty>, entry: seq<EntryLoad>, e: EntryLoad)
      requires EntryAccepted(base, entry) && EntryOk(e) && base == Some(EntryTy(e))
      ensures EntryAccepted(base, entry + [e])
    {
    }

    /** Whether all users of a GEP are plain loads, and which. */
    method CollectLoads(users: seq<GepUser>, path: Path) returns (ok: bool, sites: seq<LoadSite>)
      ensures ok <==> forall g | g in users :: IsSimpleLoad(g)
      ensures ok ==> sites == GepSites(users, path)
    {
      sites := [];
      for i := 0 to |users|
        invariant forall j | 0 <= j < i :: IsSimpleLoad(users[j])
        invariant sites == GepSites(users[..i], path)
      {
        if !IsSimpleLoad(users[i]) {
          return false, sites;
        }
        assert users[..i + 1][..i] == users[..i];
        sites := sites + [LoadSite(users[i].block, users[i].at, path)];
      }
      assert users[..|users|] == users;
      return true, sites;
    }

    /** One use; `final` is the type that all accesses together are checked against. */
    method CheckUse(u: Use, ghost entry: seq<EntryLoad>, ghost final: Option<Ty>)
      returns (ok: bool, sites: seq<LoadSite>)
      requires Knows(entry) && !Skipped(u)
      requires if baseTy.Some? then final == baseTy else !u.Other? ==> final == Some(UseTy(u))
      modifies this`baseTy, safe
      ensures ok ==> Knows(entry) && UseOk(u) && SoFarOk(baseTy, safe.elems, u)
      ensures ok ==> baseTy == (if old(baseTy).Some? then old(baseTy) else Some(UseTy(u)))
      ensures ok && old(baseTy).Some? ==> forall q :: Covers(safe.elems, q) <==> Covers(old(safe.elems), q)
      ensures ok <==> UseAccepted(AlwaysGood(byVal, final, callersValid), final, entry, u)
      ensures ok ==> sites == Sites(u)
    {
      hide SafePath, Covers, IsPrefix, AlwaysGood, GepSites, Place;
      if u.Other? || (u.Load? && !u.simple) {
        return false, [];
      }
      var agrees := UpdateBaseTy(UseTy(u), entry);
      if !agrees || (u.Gep? && u.indices.None?) {
        return false, [];
      }
      if u.Load? {
        sites := [LoadSite(u.block, u.at, Place(ZERO_PATH))];
      } else {
        var plain;
        plain, sites := CollectLoads(u.users, Place(u.indices.value));
        if !plain {
          return false, [];
        }
      }
      ok := safe.PrefixIn(UsePath(u));
    }

    /** Every use must be a load of a safe path, and only so many different paths are promoted. */
    method CheckUses(entry: seq<EntryLoad>, uses: seq<Use>) returns (ok: bool, loads: seq<LoadSite>)
      requires Knows(entry) && baseTy == BaseType(byVal, entry, []) && EntryAccepted(baseTy, entry)
      modifies this`baseTy, safe
      ensures ok <==> Accepted(byVal, entry, uses, callersValid, maxElements)
      ensures ok ==> AllLoads(uses, loads)
    {
      hide SafePath, EntryAccepted, Covers, IsPrefix, Accepted, AlwaysGood, BaseType, UseAccepted, SoFarOk, UsedPaths,
           LoadsOf, Sites, AllLoads;
      var toPromote: set<Path> := {};
      loads := [];
      NoUses();
      assert uses[..0] == [];
      for i := 0 to |uses|
        invariant Knows(entry) && baseTy == BaseType(byVal, entry, uses[..i])
        invariant forall u | u in uses[..i] :: SoFarOk(baseTy, safe.elems, u)
        invariant loads == LoadsOf(uses[..i])
        invariant toPromote == UsedPaths(uses[..i]) && (maxElements > 0 ==> |toPromote| <= maxElements)
      {
        var u := uses[i];
        assert uses[..i + 1] == uses[..i] + [u];
        UsedPathsMore(uses, i);
        LoadsOfMore(uses, i);
        BaseTypeNext(byVal, entry, uses, i, baseTy, safe.elems);
        if Skipped(u) {
          SkippedOk(baseTy, safe.elems, u);
          continue;
        }
        ghost var base, elems := baseTy, safe.elems;
        var accepted, sites := CheckUse(u, entry, BaseType(byVal, entry, uses));
        if !accepted {
          UseRejected(byVal, entry, uses, callersValid, maxElements, i);
          return false, loads;
        }
        loads := loads + sites;
        forall v | v in uses[..i] ensures SoFarOk(baseTy, safe.elems, v) {
          StillOk(base, elems, baseTy, safe.elems, v);
        }
        var operands := UsePath(u);
        if operands !in toPromote {
          if maxElements > 0 && |toPromote| == maxElements {
            TooMany(byVal, entry, uses, callersValid, maxElements, i);
            return false, loads;
          }
          toPromote := toPromote + {operands};
        }
      }
      assert uses[..|uses|] == uses;
      LoadsOfLists(uses);
      AllAccepted(byVal, entry, uses, callersValid, maxElements, safe.elems);
      return true, loads;
    }

    lemma NoUses()
      ensures UsedPaths([]) == {} && LoadsOf([]) == []
    {
    }

    lemma SkippedOk(base: Option<Ty>, elems: seq<Path>, u: Use)
      requires Skipped(u)
      ensures SoFarOk(base, elems, u) && Sites(u) == []
    {
    }

    lemma StillOk(base: Option<Ty>, elems: seq<Path>, base': Option<Ty>, elems': seq<Path>, u: Use)
      requires SoFarOk(base, elems, u)
      requires base.Some? ==> base' == base && forall q :: Covers(elems', q) <==> Covers(elems, q)
      ensures SoFarOk(base', elems', u)
    {
    }

    ghost predicate SoFarOk(base: Option<Ty>, elems: seq<Path>, u: Use) {
      Skipped(u) || (UseOk(u) && base == Some(UseTy(u)) && Covers(elems, UsePath(u)))
    }

    lemma BaseTypeNext(byVal: Option<Ty>, entry: seq<EntryLoad>, uses: seq<Use>, i: nat, base: Option<Ty>,
                       elems: seq<Path>)
      requires i < |uses| && base == BaseType(byVal, entry, uses[..i])
      requires forall u | u in uses[..i] :: SoFarOk(base, elems, u)
      ensures BaseType(byVal, entry, uses[..i + 1]) ==
              if base.Some? then base else if Skipped(uses[i]) || uses[i].Other? then None else Some(UseTy(uses[i]))
      ensures BaseType(byVal, entry, uses[..i + 1]).Some? ==>
              BaseType(byVal, entry, uses) == BaseType(byVal, entry, uses[..i + 1])
    {
      FirstUseTypeNext(uses, i);
      FirstUseTypeOfPrefix(uses, i + 1);
    }

    lemma UseRejected(byVal: Option<Ty>, entry: seq<EntryLoad>, uses: seq<Use>, callersValid: Ty -> bool, max: nat,
                      i: nat)
      requires i < |uses|
      requires var base := BaseType(byVal, entry, uses);
               !UseAccepted(AlwaysGood(byVal, base, callersValid), base, entry, uses[i])
      ensures !Accepted(byVal, entry, uses, callersValid, max)
    {
      assert uses[i] in uses;
    }

    lemma TooMany(byVal: Option<Ty>, entry: seq<EntryLoad>, uses: seq<Use>, callersValid: Ty -> bool, max: nat, i: nat)
      requires i < |uses| && max > 0 && |UsedPaths(uses[..i + 1])| > max
      ensures !Accepted(byVal, entry, uses, callersValid, max)
    {
      UsedPathsMore(uses, i);
      SubsetSize(UsedPaths(uses[..i + 1]), UsedPaths(uses));
    }

    lemma AllAccepted(byVal: Option<Ty>, entry: seq<EntryLoad>, uses: seq<Use>, callersValid: Ty -> bool, max: nat,
                      elems: seq<Path>)
      requires var base := BaseType(byVal, entry, uses);
               (forall u | u in uses :: SoFarOk(base, elems, u))
               && (entry != [] ==> EntryAccepted(BaseType(byVal, entry, []), entry))
               && forall q :: Covers(elems, q) <==> SafePath(AlwaysGood(byVal, base, callersValid), entry, q)
      requires max > 0 ==> |UsedPaths(uses)| <= max
      ensures Accepted(byVal, entry, uses, callersValid, max)
    {
      assert entry == [] ==> EntryAccepted(BaseType(byVal, entry, uses), entry);
    }

    /** Decides whether the argument's accesses allow it to be promoted, and lists the loads. */
    method IsSafeToPromote(entry: seq<EntryLoad>, uses: seq<Use>) returns (ok: bool, loads: seq<LoadSite>)
      requires Knows([]) && baseTy == byVal
      modifies this`baseTy, safe
      ensures uses == [] ==> ok
      ensures uses != [] ==> (ok <==> Accepted(byVal, entry, uses, callersValid, maxElements))
      ensures ok ==> AllLoads(uses, loads)
    {
      LoadsOfLists([]);
      if uses == [] {
        return true, [];
      }
      var surveyed := SurveyEntry(entry);
      if !surveyed {
        return false, [];
      }
      ok, loads := CheckUses(entry, uses);
    }
  }
}
