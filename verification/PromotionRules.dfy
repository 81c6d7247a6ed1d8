/** When an argument's accesses allow it to be promoted, as the comments of the pass put it: said of the
    uses themselves, with none of the notions the check is built from. */
module PromotionRules {
  import opened Collections
  import opened PrefixSet
  import opened PromotionSafety

  /** The use is a direct load, which is the same as one behind the index 0, or a GEP that something
      uses; then this is the path it takes. GEPs that nothing uses do not count. */
  ghost predicate Takes(u: Use, p: Path) {
    match u
    case Load(_, _, _, _) => p == [0]
    case Gep(_, indices, users) => users != [] && indices == Some(p)
    case Other => false
  }

  /** The type at which the pointer is accessed. */
  ghost predicate AccessedAt(entry: seq<EntryLoad>, uses: seq<Use>, ty: Ty) {
    (exists e :: e in entry && (match e case Direct(t) => t == ty case Through(t, _) => t == ty))
    || exists u :: u in uses && match u
                                case Load(_, t, _, _) => t == ty
                                case Gep(t, _, users) => users != [] && t == ty
                                case Other => false
  }

  /** The entry block loads from this path. */
  ghost predicate LoadedOnEntry(entry: seq<EntryLoad>, p: Path) {
    exists e :: e in entry && match e case Direct(_) => p == [0] case Through(_, indices) => indices == Some(p)
  }

  /** Loading from the path is safe in every caller: the pointer is always valid there and the path starts
      at it, or the entry block loads from the path or from a part of it anyway. */
  ghost predicate LoadSafely(byVal: Option<Ty>, entry: seq<EntryLoad>, uses: seq<Use>, callersValid: Ty -> bool,
                             p: Path) {
    ((byVal.Some? || exists ty :: AccessedAt(entry, uses, ty) && callersValid(ty)) && p != [] && p[0] == 0)
    || exists n :: 0 <= n <= |p| && LoadedOnEntry(entry, p[..n])
  }

  ghost predicate GoodUse(u: Use) {
    match u
    case Load(simple, _, _, _) => simple
    case Gep(_, indices, users) =>
      users == []
      || (indices.Some? && forall i | 0 <= i < |users| :: match users[i] case LoadOf(simple, _, _) => simple
                                                                         case NotALoad => false)
    case Other => false
  }

  /** All accesses are plain loads at constant indices and of one type, the byval type if there is one;
      each is safe in every caller; and not too many different paths are taken. */
  ghost predicate Promotable(byVal: Option<Ty>, entry: seq<EntryLoad>, uses: seq<Use>, callersValid: Ty -> bool,
                             max: nat) {
    (forall a: Ty, b: Ty | AccessedAt(entry, uses, a) && AccessedAt(entry, uses, b) :: a == b)
    && (byVal.Some? ==> forall a: Ty | AccessedAt(entry, uses, a) :: a == byVal.value)
    && (forall e | e in entry :: e.Through? ==> e.indices.Some?)
    && (forall u | u in uses :: GoodUse(u))
    && (forall u, p | u in uses && Takes(u, p) :: LoadSafely(byVal, entry, uses, callersValid, p))
    && (max > 0 ==> forall paths: set<Path> | (forall p | p in paths :: exists u :: u in uses && Takes(u, p)) ::
          |paths| <= max)
  }

  // ----- the check's notions mean the same -----

  lemma TakesIsPath(u: Use, p: Path)
    requires Skipped(u) || UseOk(u)
    ensures Takes(u, p) <==> !Skipped(u) && UsePath(u) == p
  {
  }

  lemma GoodIsOk(u: Use)
    ensures GoodUse(u) <==> Skipped(u) || UseOk(u)
  {
    if u.Gep? && u.users != [] && u.indices.Some? {
      var users := u.users;
      if UseOk(u) {
        forall i | 0 <= i < |users| ensures IsSimpleLoad(users[i]) { assert users[i] in users; }
      }
      if GoodUse(u) {
        forall g | g in users ensures IsSimpleLoad(g) {
          var i :| 0 <= i < |users| && users[i] == g;
        }
      }
    }
  }

  lemma EntryPrefix(entry: seq<EntryLoad>, p: Path)
    ensures (exists n :: 0 <= n <= |p| && LoadedOnEntry(entry, p[..n]))
       <==> exists e :: e in entry && EntryOk(e) && IsPrefix(EntryPath(e), p)
  {
    if n :| 0 <= n <= |p| && LoadedOnEntry(entry, p[..n]) {
      var e :| e in entry
               && match e case Direct(_) => p[..n] == [0] case Through(_, indices) => indices == Some(p[..n]);
      assert EntryOk(e) && EntryPath(e) == p[..n];
    }
    if e :| e in entry && EntryOk(e) && IsPrefix(EntryPath(e), p) {
      var q := EntryPath(e);
      assert p[..|q|] == q && LoadedOnEntry(entry, q);
    }
  }

  lemma ZeroPrefix(p: Path)
    ensures IsPrefix(ZERO_PATH, p) <==> p != [] && p[0] == 0
  {
    if p != [] && p[0] == 0 { assert p[..1] == [0]; }
    if IsPrefix(ZERO_PATH, p) { assert p[..1][0] == 0; }
  }

  /** The base type is the type of some access; and if all accesses are of one type, of each. */
  lemma BaseIsAccess(byVal: Option<Ty>, entry: seq<EntryLoad>, uses: seq<Use>)
    requires forall u | u in uses :: !u.Other?
    ensures byVal.None? ==> forall ty: Ty | BaseType(byVal, entry, uses) == Some(ty) :: AccessedAt(entry, uses, ty)
    ensures BaseType(byVal, entry, uses).None? ==> forall ty: Ty :: !AccessedAt(entry, uses, ty)
  {
    if byVal.None? {
      if entry == [] {
        FirstIsUsed(uses);
        assert forall ty: Ty :: AccessedAt([], uses, ty) <==>
          exists u :: u in uses && !Skipped(u) && !u.Other? && UseTy(u) == ty by { UsedAt(uses); }
      } else {
        assert entry[0] in entry;
      }
    }
  }

  lemma UsedAt(uses: seq<Use>)
    ensures forall ty: Ty :: AccessedAt([], uses, ty) <==>
              exists u :: u in uses && !Skipped(u) && !u.Other? && UseTy(u) == ty
  {
  }

  lemma {:induction false} FirstIsUsed(uses: seq<Use>)
    requires forall u | u in uses :: !u.Other?
    ensures FirstUseType(uses).Some? ==>
              exists u :: u in uses && !Skipped(u) && !u.Other? && UseTy(u) == FirstUseType(uses).value
    ensures FirstUseType(uses).None? ==> forall u | u in uses :: Skipped(u)
    decreases |uses|
  {
    if uses != [] {
      assert uses[0] in uses && uses == [uses[0]] + uses[1..];
      if Skipped(uses[0]) { FirstIsUsed(uses[1..]); }
    }
  }

  /** Every access has the base type. */
  ghost predicate OfBaseType(byVal: Option<Ty>, entry: seq<EntryLoad>, uses: seq<Use>) {
    forall ty: Ty | AccessedAt(entry, uses, ty) :: BaseType(byVal, entry, uses) == Some(ty)
  }

  lemma OneTypeIff(byVal: Option<Ty>, entry: seq<EntryLoad>, uses: seq<Use>)
    requires forall u | u in uses :: !u.Other?
    ensures OfBaseType(byVal, entry, uses)
       <==> (forall a: Ty, b: Ty | AccessedAt(entry, uses, a) && AccessedAt(entry, uses, b) :: a == b)
            && (byVal.Some? ==> forall a: Ty | AccessedAt(entry, uses, a) :: a == byVal.value)
  {
    hide AccessedAt;
    BaseIsAccess(byVal, entry, uses);
  }

  lemma TypesAre(entry: seq<EntryLoad>, uses: seq<Use>, base: Option<Ty>)
    requires forall u | u in uses :: !u.Other?
    ensures (forall ty: Ty | AccessedAt(entry, uses, ty) :: base == Some(ty))
       <==> (forall e | e in entry :: base == Some(EntryTy(e)))
            && forall u | u in uses && !Skipped(u) :: base == Some(UseTy(u))
  {
    if forall ty: Ty | AccessedAt(entry, uses, ty) :: base == Some(ty) {
      forall e | e in entry ensures base == Some(EntryTy(e)) { assert AccessedAt(entry, uses, EntryTy(e)); }
      forall u | u in uses && !Skipped(u) ensures base == Some(UseTy(u)) { assert AccessedAt(entry, uses, UseTy(u)); }
    }
  }

  lemma SafeIff(byVal: Option<Ty>, entry: seq<EntryLoad>, uses: seq<Use>, callersValid: Ty -> bool, p: Path)
    requires forall u | u in uses :: !u.Other?
    requires OfBaseType(byVal, entry, uses)
    requires exists ty :: AccessedAt(entry, uses, ty)
    ensures LoadSafely(byVal, entry, uses, callersValid, p)
       <==> SafePath(AlwaysGood(byVal, BaseType(byVal, entry, uses), callersValid), entry, p)
  {
    hide AccessedAt, LoadedOnEntry, IsPrefix, EntryOk;
    BaseIsAccess(byVal, entry, uses);
    EntryPrefix(entry, p);
    ZeroPrefix(p);
  }

  lemma PathsAre(uses: seq<Use>, max: nat)
    requires forall u | u in uses :: Skipped(u) || UseOk(u)
    ensures (forall paths: set<Path> | (forall p | p in paths :: exists u :: u in uses && Takes(u, p)) ::
               |paths| <= max)
       <==> |UsedPaths(uses)| <= max
  {
    var all := UsedPaths(uses);
    forall p ensures p in all <==> exists u :: u in uses && Takes(u, p) {
      if p in all {
        var u :| u in uses && !Skipped(u) && UseOk(u) && UsePath(u) == p;
        TakesIsPath(u, p);
      }
      if u :| u in uses && Takes(u, p) { TakesIsPath(u, p); }
    }
    if |all| <= max {
      forall paths: set<Path> | forall p | p in paths :: exists u :: u in uses && Takes(u, p) ensures |paths| <= max {
        assert paths <= all;
        SubsetSize(paths, all);
      }
    }
  }

  /** What the check accepts is what may be promoted. */
  lemma AcceptedIff(byVal: Option<Ty>, entry: seq<EntryLoad>, uses: seq<Use>, callersValid: Ty -> bool, max: nat)
    ensures PromotionSafety.Accepted(byVal, entry, uses, callersValid, max)
       <==> Promotable(byVal, entry, uses, callersValid, max)
  {
    hide AccessedAt, LoadSafely, SafePath, Takes, GoodUse, UsedPaths, AlwaysGood, BaseType;
    var base := BaseType(byVal, entry, uses);
    var good := AlwaysGood(byVal, base, callersValid);
    forall u ensures GoodUse(u) <==> Skipped(u) || UseOk(u) { GoodIsOk(u); }
    if forall u | u in uses :: GoodUse(u) {
      assert forall u | u in uses :: !u.Other?;
      OneTypeIff(byVal, entry, uses);
      TypesAre(entry, uses, base);
      PathsAre(uses, max);
      if OfBaseType(byVal, entry, uses) {
        forall u, p | u in uses && Takes(u, p)
          ensures LoadSafely(byVal, entry, uses, callersValid, p) <==> SafePath(good, entry, p)
        {
          TakesAccess(entry, uses, u, p);
          SafeIff(byVal, entry, uses, callersValid, p);
        }
        forall u | u in uses ensures !Skipped(u) ==> Takes(u, UsePath(u))
          ensures forall p | Takes(u, p) :: !Skipped(u) && UsePath(u) == p
        {
          forall p ensures Takes(u, p) <==> !Skipped(u) && UsePath(u) == p { TakesIsPath(u, p); }
        }
      }
    }
  }

  lemma TakesAccess(entry: seq<EntryLoad>, uses: seq<Use>, u: Use, p: Path)
    requires u in uses && Takes(u, p)
    ensures exists ty :: AccessedAt(entry, uses, ty)
  {
    assert AccessedAt(entry, uses, UseTy(u));
  }
}
