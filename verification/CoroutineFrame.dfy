/** A whole coroutine frame: header fields, allocas and spills, laid out together. */
module CoroutineFrame {
  import opened Collections
  import opened Bits
  import opened StructLayout
  import opened SlotSharing
  import opened FrameLayout

  /** What a frame promises: interfering allocas, and every spill, have storage of their own; an
      alloca's storage has the alignment it asks for, a spill's that of its type unless capped. */
  ghost predicate FrameOk(cap: Option<Align>, allocas: seq<Alloca>, interferes: (nat, nat) -> bool, spills: seq<Ty>,
                          allocaAt: map<nat, nat>, spillAt: map<nat, nat>) {
    (forall a | 0 <= a < |allocas| && allocas[a].size > 0 :: a in allocaAt && Aligned(allocaAt[a], allocas[a].align))
    && (forall s | 0 <= s < |spills| && spills[s].size > 0 ::
          s in spillAt
          && Aligned(spillAt[s], if cap.Some? && cap.value < spills[s].abi then cap.value else spills[s].abi))
    && (forall a, b | 0 <= a < |allocas| && 0 <= b < |allocas| && a != b && interferes(a, b)
                      && allocas[a].size > 0 && allocas[b].size > 0 ::
          Apart(allocaAt[a], allocas[a].size, allocaAt[b], allocas[b].size))
    && (forall a, s | 0 <= a < |allocas| && 0 <= s < |spills| && allocas[a].size > 0 && spills[s].size > 0 ::
          Apart(allocaAt[a], allocas[a].size, spillAt[s], spills[s].size))
    && (forall s, t | 0 <= s < t < |spills| && spills[s].size > 0 && spills[t].size > 0 ::
          Apart(spillAt[s], spills[s].size, spillAt[t], spills[t].size))
  }

  /** Spills with storage own distinct fields from `from` on. */
  ghost predicate SpillFields(cap: Option<Align>, spills: seq<Ty>, n: nat, ids: seq<nat>, fields: seq<Field>, from: nat)
    requires n <= |spills|
  {
    |ids| == n
    && (forall s | 0 <= s < n && spills[s].size > 0 ::
          from <= ids[s] < |fields| && fields[ids[s]].ty == spills[s] && fields[ids[s]].size == spills[s].size
          && fields[ids[s]].align == TypeAlignment(cap, spills[s], true)
          && fields[ids[s]].tyAlign == TypeAlignment(cap, spills[s], true))
    && (forall s, t | 0 <= s < t < n && spills[s].size > 0 && spills[t].size > 0 :: ids[s] < ids[t])
  }

  ghost predicate IsSpillId(spills: seq<Ty>, ids: seq<nat>, id: nat)
    requires |ids| <= |spills|
  {
    exists s :: 0 <= s < |ids| && spills[s].size > 0 && ids[s] == id
  }

  /** Every id from `from` to below `upto` is a spill's. */
  ghost predicate SpillCover(spills: seq<Ty>, ids: seq<nat>, from: nat, upto: nat)
    requires |ids| <= |spills|
  {
    forall id: nat | from <= id < upto :: IsSpillId(spills, ids, id)
  }

  lemma SpillCoverMore(spills: seq<Ty>, ids: seq<nat>, from: nat, upto: nat, id: nat)
    requires |ids| < |spills| && SpillCover(spills, ids, from, upto)
    requires spills[|ids|].size > 0 ==> id == upto
    ensures SpillCover(spills, ids + [id], from, if spills[|ids|].size > 0 then upto + 1 else upto)
  {
    var more := ids + [id];
    assert more[|ids|] == id;
    forall x: nat | from <= x < upto ensures IsSpillId(spills, more, x) {
      assert IsSpillId(spills, ids, x);
      var s :| 0 <= s < |ids| && spills[s].size > 0 && ids[s] == x;
      assert more[s] == x;
    }
  }

  lemma FrameFromFields(cap: Option<Align>, allocas: seq<Alloca>, interferes: (nat, nat) -> bool, spills: seq<Ty>,
                        slots: seq<seq<nat>>, ids: map<nat, nat>, bounds: seq<nat>, spillIds: seq<nat>,
                        fields: seq<Field>, layout: seq<Placed>, at: map<nat, nat>, allocaAt: map<nat, nat>,
                        spillAt: map<nat, nat>)
    requires Partition(slots, |allocas|) && SlotsOk(allocas, interferes, slots)
    requires SlotFields(allocas, slots, ids, fields, bounds) && |bounds| == |slots| + 1
    requires ValidLayout(fields, layout) && At(fields, layout, at)
    requires forall x, y :: interferes(x, y) == interferes(y, x)
    requires SpillFields(cap, spills, |spills|, spillIds, fields, bounds[|slots|])
    requires forall a | a in ids && ids[a] in at :: a in allocaAt && allocaAt[a] == at[ids[a]]
    requires forall s | 0 <= s < |spills| && spillIds[s] in at :: s in spillAt && spillAt[s] == at[spillIds[s]]
    ensures FrameOk(cap, allocas, interferes, spills, allocaAt, spillAt)
  {
    hide Partition, SlotsOk, SlotFields, ValidLayout, Aligned, At;
    forall a | 0 <= a < |allocas| && allocas[a].size > 0
      ensures a in allocaAt && a in ids && ids[a] in at && ids[a] < bounds[|slots|] && ids[a] < |fields|
              && allocaAt[a] == at[ids[a]]
      ensures allocas[a].size <= fields[ids[a]].size && Aligned(allocaAt[a], allocas[a].align)
    {
      AllocaPlaced(allocas, interferes, slots, ids, fields, bounds, layout, at, a);
    }
    forall s | 0 <= s < |spills| && spills[s].size > 0
      ensures s in spillAt && spillIds[s] in at && spillAt[s] == at[spillIds[s]]
      ensures Aligned(spillAt[s], TypeAlignment(cap, spills[s], true))
    {
      IsAt(fields, layout, at, spillIds[s]);
      FieldIsAligned(fields, layout, at, spillIds[s]);
    }
    forall a, b | 0 <= a < |allocas| && 0 <= b < |allocas| && a != b && interferes(a, b) && allocas[a].size > 0
      && allocas[b].size > 0
      ensures Apart(allocaAt[a], allocas[a].size, allocaAt[b], allocas[b].size)
    {
      FrameIsSafe(allocas, interferes, slots, ids, fields, bounds, layout, at, a, b);
    }
    forall a, s | 0 <= a < |allocas| && 0 <= s < |spills| && allocas[a].size > 0 && spills[s].size > 0
      ensures Apart(allocaAt[a], allocas[a].size, spillAt[s], spills[s].size)
    {
      PlacedApart(fields, layout, at, ids[a], spillIds[s]);
    }
    forall s, t | 0 <= s < t < |spills| && spills[s].size > 0 && spills[t].size > 0
      ensures Apart(spillAt[s], spills[s].size, spillAt[t], spills[t].size)
    {
      PlacedApart(fields, layout, at, spillIds[s], spillIds[t]);
    }
  }

  lemma IsAt(fields: seq<Field>, layout: seq<Placed>, at: map<nat, nat>, id: nat)
    requires At(fields, layout, at) && id < |fields|
    ensures id in at && Placed(id, at[id]) in layout
  {
  }

  lemma AllocaPlaced(allocas: seq<Alloca>, interferes: (nat, nat) -> bool, slots: seq<seq<nat>>, ids: map<nat, nat>,
                     fields: seq<Field>, bounds: seq<nat>, layout: seq<Placed>, at: map<nat, nat>, a: nat)
    requires Partition(slots, |allocas|) && SlotsOk(allocas, interferes, slots)
    requires SlotFields(allocas, slots, ids, fields, bounds) && |bounds| == |slots| + 1
    requires ValidLayout(fields, layout) && At(fields, layout, at)
    requires a < |allocas| && allocas[a].size > 0
    ensures a in ids && ids[a] in at && ids[a] < |fields| && ids[a] < bounds[|slots|]
    ensures allocas[a].size <= fields[ids[a]].size && Aligned(at[ids[a]], allocas[a].align)
  {
    hide Partition, SlotsOk, ValidLayout, SlotHasField, Aligned;
    var s := SlotOf(allocas, interferes, slots, ids, fields, bounds, a);
    assert bounds[s + 1] <= bounds[|slots|];
    FieldIsAligned(fields, layout, at, ids[a]);
    CoarserAligned(at[ids[a]], fields[ids[a]].align, allocas[a].align);
  }

  lemma FieldIsAligned(fields: seq<Field>, layout: seq<Placed>, at: map<nat, nat>, id: nat)
    requires ValidLayout(fields, layout) && id < |fields| && At(fields, layout, at)
    ensures id in at && Aligned(at[id], fields[id].align)
  {
    var i :| 0 <= i < |layout| && layout[i] == Placed(id, at[id]);
  }

  /** A field the lowering adds before allocas and spills: resume pointers, promise, index. */
  datatype Leading = Leading(ty: Ty, align: Option<Align>, isHeader: bool)

  predicate HasStorage(l: Leading) { l.ty.size > 0 }

  predicate IsHead(l: Leading) { l.isHeader && l.ty.size > 0 }

  /** What a leading field asks for, or else what its type has. */
  function LeadAlign(l: Leading): Align { if l.align.Some? then l.align.value else l.ty.abi }

  /** Header field i stands past the header fields before it, at an offset no smaller one could replace,
      as it has to be aligned; the first one stands at 0. */
  ghost predicate HeadPacked(leading: seq<Leading>, i: nat, at: map<nat, nat>)
    requires i < |leading|
  {
    i in at && Aligned(at[i], LeadAlign(leading[i]))
    && (forall j | 0 <= j < i && IsHead(leading[j]) :: j in at && at[j] + leading[j].ty.size <= at[i])
    && ((exists j :: 0 <= j < i && IsHead(leading[j]) && j in at
                     && at[i] < at[j] + leading[j].ty.size + Bytes(LeadAlign(leading[i])))
        || (at[i] == 0 && forall j | 0 <= j < i :: !IsHead(leading[j])))
  }

  ghost predicate HeadsPacked(leading: seq<Leading>, n: nat, at: map<nat, nat>)
    requires n <= |leading|
  {
    forall i | 0 <= i < n && IsHead(leading[i]) :: HeadPacked(leading, i, at)
  }

  /** Leading fields have their own storage, each with the alignment it asks for or else that of its
      type, and the header ones stand first and in order. */
  ghost predicate LeadingOk(leading: seq<Leading>, leadAt: map<nat, nat>, allocas: seq<Alloca>,
                            allocaAt: map<nat, nat>, spills: seq<Ty>, spillAt: map<nat, nat>) {
    (forall i | 0 <= i < |leading| && HasStorage(leading[i]) ::
       i in leadAt
       && Aligned(leadAt[i], if leading[i].align.Some? then leading[i].align.value else leading[i].ty.abi))
    && (forall i, j | 0 <= i < j < |leading| && HasStorage(leading[i]) && HasStorage(leading[j]) ::
          Apart(leadAt[i], leading[i].ty.size, leadAt[j], leading[j].ty.size))
    && (forall i, a | 0 <= i < |leading| && HasStorage(leading[i]) && 0 <= a < |allocas| && allocas[a].size > 0 ::
          a in allocaAt && Apart(leadAt[i], leading[i].ty.size, allocaAt[a], allocas[a].size))
    && (forall i, s | 0 <= i < |leading| && HasStorage(leading[i]) && 0 <= s < |spills| && spills[s].size > 0 ::
          s in spillAt && Apart(leadAt[i], leading[i].ty.size, spillAt[s], spills[s].size))
    && HeadsPacked(leading, |leading|, leadAt)
  }

  predicate IsLeadField(l: Leading, f: Field) {
    f.ty == l.ty && f.size == l.ty.size && f.tyAlign == l.ty.abi && IsHeader(f) == l.isHeader
    && f.align == LeadAlign(l)
  }

  /** Leading fields with storage own distinct fields; `heads` are the header offsets. */
  ghost predicate LeadingFields(leading: seq<Leading>, n: nat, ids: seq<nat>, fields: seq<Field>, heads: map<nat, nat>)
    requires n <= |leading|
  {
    |ids| == n
    && (forall i | 0 <= i < n && HasStorage(leading[i]) :: ids[i] < |fields| && IsLeadField(leading[i], fields[ids[i]]))
    && (forall i, j | 0 <= i < j < n && HasStorage(leading[i]) && HasStorage(leading[j]) :: ids[i] < ids[j])
    && (forall i | 0 <= i < n && IsHead(leading[i]) :: i in heads && fields[ids[i]].offset == Some(heads[i]))
    && HeadsPacked(leading, n, heads)
  }

  /** Where the header ends. */
  ghost predicate HeaderEnd(leading: seq<Leading>, n: nat, heads: map<nat, nat>, end: nat)
    requires n <= |leading|
  {
    (forall j | 0 <= j < n && IsHead(leading[j]) :: j in heads && heads[j] + leading[j].ty.size <= end)
    && ((exists j :: 0 <= j < n && IsHead(leading[j]) && j in heads && end == heads[j] + leading[j].ty.size)
        || (end == 0 && forall j | 0 <= j < n :: !IsHead(leading[j])))
  }

  ghost predicate IsLeadId(leading: seq<Leading>, ids: seq<nat>, id: nat)
    requires |ids| <= |leading|
  {
    exists i :: 0 <= i < |ids| && HasStorage(leading[i]) && ids[i] == id
  }

  /** Every id below `upto` is a leading field's. */
  ghost predicate LeadingCover(leading: seq<Leading>, ids: seq<nat>, upto: nat)
    requires |ids| <= |leading|
  {
    forall id: nat | id < upto :: IsLeadId(leading, ids, id)
  }

  lemma CoverMore(leading: seq<Leading>, ids: seq<nat>, upto: nat, id: nat)
    requires |ids| < |leading| && LeadingCover(leading, ids, upto)
    requires HasStorage(leading[|ids|]) ==> id == upto
    ensures LeadingCover(leading, ids + [id], if HasStorage(leading[|ids|]) then upto + 1 else upto)
  {
    var more := ids + [id];
    assert more[|ids|] == id;
    forall x: nat | x < upto ensures IsLeadId(leading, more, x) {
      assert IsLeadId(leading, ids, x);
      var i :| 0 <= i < |ids| && HasStorage(leading[i]) && ids[i] == x;
      assert more[i] == x;
    }
  }

  lemma NoLeading(leading: seq<Leading>, fields: seq<Field>)
    ensures LeadingFields(leading, 0, [], fields, map[]) && HeaderEnd(leading, 0, map[], 0)
  {
  }

  lemma NextHead(leading: seq<Leading>, n: nat, heads: map<nat, nat>, end: nat, offset: nat)
    requires n < |leading| && IsHead(leading[n]) && HeadsPacked(leading, n, heads) && HeaderEnd(leading, n, heads, end)
    requires end <= offset < end + Bytes(LeadAlign(leading[n]))
    requires Aligned(offset, LeadAlign(leading[n]))
    ensures HeadsPacked(leading, n + 1, heads[n := offset])
    ensures HeaderEnd(leading, n + 1, heads[n := offset], offset + leading[n].ty.size)
  {
    hide Aligned, Bytes, HeadPacked;
    var more := heads[n := offset];
    forall i | 0 <= i < n && IsHead(leading[i]) ensures HeadPacked(leading, i, more) {
      HeadAgain(leading, i, heads, more);
    }
    assert HeadPacked(leading, n, more) by { NewHead(leading, n, heads, end, offset); }
    assert more[n] == offset && n in more;
  }

  lemma NewHead(leading: seq<Leading>, n: nat, heads: map<nat, nat>, end: nat, offset: nat)
    requires n < |leading| && IsHead(leading[n]) && HeaderEnd(leading, n, heads, end)
    requires end <= offset < end + Bytes(LeadAlign(leading[n]))
    requires Aligned(offset, LeadAlign(leading[n]))
    ensures HeadPacked(leading, n, heads[n := offset])
  {
    hide Aligned, Bytes;
    var more := heads[n := offset];
    if j :| 0 <= j < n && IsHead(leading[j]) && j in heads && end == heads[j] + leading[j].ty.size {
      assert more[j] == heads[j];
    } else {
      FirstOffsetIsZero(offset, LeadAlign(leading[n]));
    }
  }

  lemma HeadAgain(leading: seq<Leading>, i: nat, heads: map<nat, nat>, more: map<nat, nat>)
    requires i < |leading| && IsHead(leading[i]) && HeadPacked(leading, i, heads)
    requires forall j | 0 <= j <= i && IsHead(leading[j]) :: j in more && (j in heads ==> more[j] == heads[j])
    ensures HeadPacked(leading, i, more)
  {
    hide Aligned, Bytes;
  }

  lemma FirstOffsetIsZero(offset: nat, a: Align)
    requires Aligned(offset, a) && offset < Bytes(a)
    ensures offset == 0
  {
    QuotientIsUnique(0, Bytes(a), offset);
  }

  lemma NextNoHead(leading: seq<Leading>, n: nat, heads: map<nat, nat>, end: nat)
    requires n < |leading| && !IsHead(leading[n]) && HeadsPacked(leading, n, heads)
    requires HeaderEnd(leading, n, heads, end)
    ensures HeadsPacked(leading, n + 1, heads) && HeaderEnd(leading, n + 1, heads, end)
  {
    hide HeadPacked;
  }

  lemma NextLeading(leading: seq<Leading>, n: nat, ids: seq<nat>, fields: seq<Field>, heads: map<nat, nat>, id: nat,
                    more: seq<Field>, heads': map<nat, nat>)
    requires n < |leading| && LeadingFields(leading, n, ids, fields, heads) && fields <= more
    requires HasStorage(leading[n]) ==> id == |fields| < |more| && IsLeadField(leading[n], more[id])
    requires if IsHead(leading[n]) then more[id].offset.Some? && heads' == heads[n := more[id].offset.value]
             else heads' == heads
    requires HeadsPacked(leading, n + 1, heads')
    ensures LeadingFields(leading, n + 1, ids + [id], more, heads')
  {
    hide HeadsPacked;
  }

  lemma MoreFieldsKeepLeading(leading: seq<Leading>, ids: seq<nat>, fields: seq<Field>, heads: map<nat, nat>,
                              more: seq<Field>)
    requires LeadingFields(leading, |leading|, ids, fields, heads) && fields <= more
    ensures LeadingFields(leading, |leading|, ids, more, heads)
  {
    hide HeadsPacked;
  }

  lemma MoreFieldsKeepSlots(allocas: seq<Alloca>, slots: seq<seq<nat>>, ids: map<nat, nat>, fields: seq<Field>,
                            bounds: seq<nat>, more: seq<Field>)
    requires SlotFields(allocas, slots, ids, fields, bounds) && fields <= more
    ensures SlotFields(allocas, slots, ids, more, bounds)
  {
    forall s | 0 <= s < |bounds| - 1 ensures SlotHasField(allocas, slots[s], ids, more, bounds[s], bounds[s + 1]) {
      assert SlotHasField(allocas, slots[s], ids, fields, bounds[s], bounds[s + 1]);
    }
  }

  lemma NextSpill(cap: Option<Align>, spills: seq<Ty>, n: nat, ids: seq<nat>, fields: seq<Field>, from: nat, id: nat,
                  more: seq<Field>)
    requires n < |spills| && SpillFields(cap, spills, n, ids, fields, from) && fields <= more && from <= |fields|
    requires spills[n].size > 0 ==>
             id == |fields| < |more| && more[id].ty == spills[n]
             && more[id].size == spills[n].size
             && more[id].align == TypeAlignment(cap, spills[n], true)
             && more[id].tyAlign == TypeAlignment(cap, spills[n], true)
    ensures SpillFields(cap, spills, n + 1, ids + [id], more, from)
  {
  }

  lemma FinishedAt(given: seq<Field>, layout: seq<Placed>, fields: seq<Field>) returns (at: map<nat, nat>)
    requires ValidLayout(given, layout) && |fields| == |given|
    requires forall i | 0 <= i < |layout| ::
             layout[i].id < |fields| && fields[layout[i].id].offset == Some(layout[i].offset)
    ensures At(given, layout, at) && forall id | 0 <= id < |fields| :: id in at && fields[id].offset == Some(at[id])
    ensures forall id | id in at :: id < |fields|
  {
    at := map i | 0 <= i < |layout| :: layout[i].id := layout[i].offset;
    forall id | 0 <= id < |given| ensures id in at && Placed(id, at[id]) in layout
      && fields[id].offset == Some(at[id]) {
      EveryFieldPlaced(given, layout, id);
      var i :| 0 <= i < |layout| && layout[i].id == id;
      assert layout[i] == Placed(id, at[id]);
    }
  }

  /** As many placements as fields, all different, leave no field out. */
  lemma EveryFieldPlaced(fields: seq<Field>, layout: seq<Placed>, id: nat)
    requires ValidLayout(fields, layout) && id < |fields|
    ensures exists i :: 0 <= i < |layout| && layout[i].id == id
  {
    if forall i | 0 <= i < |layout| :: layout[i].id != id {
      var ids := seq(|layout|, i requires 0 <= i < |layout| => layout[i].id);
      var all := Below(|fields|);
      DistinctCount(ids, all - {id});
      CountBelow(|fields|);
      assert false;
    }
  }

  lemma {:induction false} DistinctCount(ids: seq<nat>, pool: set<nat>)
    requires forall i | 0 <= i < |ids| :: ids[i] in pool
    requires forall i, j | 0 <= i < j < |ids| :: ids[i] != ids[j]
    ensures |ids| <= |pool|
  {
    if ids != [] {
      DistinctCount(ids[1..], pool - {ids[0]});
    }
  }

  lemma {:induction false} CountBelow(n: nat)
    ensures |Below(n)| == n
  {
    if n > 0 { CountBelow(n - 1); }
  }

  // ----- storage of size zero -----

  /** Every id handed out is a field's number, or 0. */
  predicate Handed(ids: seq<nat>, count: nat) { forall i | 0 <= i < |ids| :: ids[i] == 0 || ids[i] < count }

  /** Something in the frame has a size. */
  ghost predicate SomeStorage(leading: seq<Leading>, allocas: seq<Alloca>, spills: seq<Ty>) {
    (exists i :: 0 <= i < |leading| && leading[i].ty.size > 0)
    || (exists a :: 0 <= a < |allocas| && allocas[a].size > 0)
    || (exists s :: 0 <= s < |spills| && spills[s].size > 0)
  }

  /** Nothing in the frame is of size zero. */
  ghost predicate NothingEmpty(leading: seq<Leading>, allocas: seq<Alloca>, spills: seq<Ty>) {
    (forall i | 0 <= i < |leading| :: leading[i].ty.size > 0)
    && (forall a | 0 <= a < |allocas| :: allocas[a].size > 0)
    && (forall s | 0 <= s < |spills| :: spills[s].size > 0)
  }

  lemma {:induction false} EmptySlotsAddNothing(allocas: seq<Alloca>, slots: seq<seq<nat>>, ids: map<nat, nat>,
                                                fields: seq<Field>, bounds: seq<nat>, n: nat)
    requires SlotFields(allocas, slots, ids, fields, bounds) && n < |bounds|
    requires forall a | 0 <= a < |allocas| :: allocas[a].size == 0
    ensures bounds[n] == bounds[0]
  {
    if n > 0 {
      EmptySlotsAddNothing(allocas, slots, ids, fields, bounds, n - 1);
      assert SlotHasField(allocas, slots[n - 1], ids, fields, bounds[n - 1], bounds[n]);
    }
  }

  /** Allocas bring a field exactly if one of them has a size. */
  lemma AllocaFields(allocas: seq<Alloca>, interferes: (nat, nat) -> bool, slots: seq<seq<nat>>, ids: map<nat, nat>,
                     fields: seq<Field>, bounds: seq<nat>)
    requires Partition(slots, |allocas|) && SlotsOk(allocas, interferes, slots)
    requires SlotFields(allocas, slots, ids, fields, bounds) && |bounds| == |slots| + 1 && bounds[|slots|] == |fields|
    ensures |fields| > bounds[0] <==> exists a :: 0 <= a < |allocas| && allocas[a].size > 0
    ensures forall a | 0 <= a < |allocas| :: a in ids && (ids[a] == 0 || ids[a] < |fields|)
  {
    hide SlotsOk;
    forall a | 0 <= a < |allocas| ensures a in ids && (ids[a] == 0 || ids[a] < |fields|) {
      assert InSomeSlot(slots, a);
      var s :| 0 <= s < |slots| && a in slots[s];
      assert SlotHasField(allocas, slots[s], ids, fields, bounds[s], bounds[s + 1]);
    }
    if a :| 0 <= a < |allocas| && allocas[a].size > 0 {
      var s := SlotOf(allocas, interferes, slots, ids, fields, bounds, a);
      assert bounds[0] <= bounds[s] < bounds[s + 1] <= bounds[|slots|];
    } else {
      EmptySlotsAddNothing(allocas, slots, ids, fields, bounds, |slots|);
    }
  }

  /** A frame of one empty alloca hands out field 0 and has no field. */
  method OnlyEmptyAlloca() returns (id: nat, count: nat)
    ensures id == 0 && count == 0
  {
    hide Sharing;
    var empty := Alloca(0, 0, 0);
    var builder := new FrameTypeBuilder(None);
    var ids, slots, order;
    ghost var bounds;
    ids, slots, order, bounds := builder.AddFieldForAllocas([empty], (x, y) => false, false);
    AllocaFields([empty], (x, y) => false, slots, ids, builder.fields, bounds);
    id, count := ids[0], |builder.fields|;
    assert InSomeSlot(slots, 0);
    ghost var s :| 0 <= s < |slots| && 0 in slots[s];
    assert SlotHasField([empty], slots[s], ids, builder.fields, bounds[s], bounds[s + 1]);
  }

  // ----- the whole frame -----

  method AddLeading(builder: FrameTypeBuilder, leading: seq<Leading>)
    returns (ids: seq<nat>, ghost heads: map<nat, nat>)
    requires builder.Building() && builder.fields == [] && builder.structSize == 0
    modifies builder
    ensures builder.Building() && |ids| == |leading| && Handed(ids, |builder.fields|)
    ensures |builder.fields| > 0 <==> exists k :: 0 <= k < |leading| && leading[k].ty.size > 0
    ensures LeadingFields(leading, |leading|, ids, builder.fields, heads)
    ensures LeadingCover(leading, ids, |builder.fields|)
  {
    hide HeaderOk, LeadingFields, HeadsPacked, HeaderEnd, Aligned, LeadingCover;
    ids, heads := [], map[];
    NoLeading(leading, builder.fields);
    assert LeadingCover(leading, ids, 0) by { NoCover(leading); }
    assert HeadsPacked(leading, 0, heads) by { LeadingHeads(leading, 0, [], builder.fields, heads); }
    for i := 0 to |leading|
      invariant builder.Building() && |ids| == i && Handed(ids, |builder.fields|)
      invariant |builder.fields| > 0 <==> exists k :: 0 <= k < i && leading[k].ty.size > 0
      invariant LeadingFields(leading, i, ids, builder.fields, heads)
      invariant HeadsPacked(leading, i, heads) && HeaderEnd(leading, i, heads, builder.structSize)
      invariant LeadingCover(leading, ids, |builder.fields|)
    {
      ghost var before, end, was := builder.fields, builder.structSize, heads;
      var id := builder.AddField(leading[i].ty, leading[i].align, leading[i].isHeader, false);
      if IsHead(leading[i]) {
        HeaderAligned(builder, id);
        NextHead(leading, i, was, end, builder.fields[id].offset.value);
        heads := heads[i := builder.fields[id].offset.value];
      } else {
        NextNoHead(leading, i, was, end);
      }
      NextLeading(leading, i, ids, before, was, id, builder.fields, heads);
      CoverMore(leading, ids, |before|, id);
      ids := ids + [id];
    }
  }

  lemma NoCover(leading: seq<Leading>)
    ensures LeadingCover(leading, [], 0)
  {
  }

  lemma LeadingHeads(leading: seq<Leading>, n: nat, ids: seq<nat>, fields: seq<Field>, heads: map<nat, nat>)
    requires n <= |leading| && LeadingFields(leading, n, ids, fields, heads)
    ensures HeadsPacked(leading, n, heads)
  {
  }

  lemma HeaderAligned(builder: FrameTypeBuilder, id: nat)
    requires builder.Building() && id < |builder.fields| && IsHeader(builder.fields[id])
    ensures Aligned(builder.fields[id].offset.value, builder.fields[id].align)
  {
  }

  method AddSpills(builder: FrameTypeBuilder, spills: seq<Ty>, ghost from: nat) returns (ids: seq<nat>)
    requires builder.Building() && from == |builder.fields|
    modifies builder
    ensures builder.Building() && old(builder.fields) <= builder.fields
    ensures SpillFields(builder.maxFrameAlignment, spills, |spills|, ids, builder.fields, from)
    ensures |ids| == |spills| && Handed(ids, |builder.fields|)
    ensures SpillCover(spills, ids, from, |builder.fields|)
    ensures |builder.fields| > from <==> exists k :: 0 <= k < |spills| && spills[k].size > 0
  {
    hide HeaderOk, SpillFields, SpillCover;
    ids := [];
    ghost var cap := builder.maxFrameAlignment;
    NoSpills(cap, spills, builder.fields, from);
    assert SpillCover(spills, ids, from, from) by { NoSpillCover(spills, from); }
    for s := 0 to |spills|
      invariant builder.Building() && old(builder.fields) <= builder.fields
      invariant SpillFields(cap, spills, s, ids, builder.fields, from)
      invariant |ids| == s && Handed(ids, |builder.fields|)
      invariant from <= |builder.fields| && SpillCover(spills, ids, from, |builder.fields|)
      invariant |builder.fields| > from <==> exists k :: 0 <= k < s && spills[k].size > 0
    {
      ghost var before := builder.fields;
      var id := builder.AddField(spills[s], None, false, true);
      NextSpill(cap, spills, s, ids, before, from, id, builder.fields);
      SpillCoverMore(spills, ids, from, |before|, id);
      ids := ids + [id];
    }
  }

  lemma NoSpillCover(spills: seq<Ty>, from: nat)
    ensures SpillCover(spills, [], from, from)
  {
  }

  /** The offset of the field each id names. */
  function OffsetsOf(ids: map<nat, nat>, fields: seq<Field>): map<nat, nat> {
    map x | x in ids && ids[x] < |fields| && fields[ids[x]].offset.Some? :: fields[ids[x]].offset.value
  }

  function AsMap(ids: seq<nat>): map<nat, nat> { map i: nat | i < |ids| :: ids[i] }

  /** In the finished frame the leading fields are where their ids say. */
  lemma LeadingPlaced(leading: seq<Leading>, ids: seq<nat>, heads: map<nat, nat>, fields: seq<Field>,
                      layout: seq<Placed>, at: map<nat, nat>, leadAt: map<nat, nat>, first: nat)
    requires LeadingFields(leading, |leading|, ids, fields, heads)
    requires forall i | 0 <= i < |leading| && HasStorage(leading[i]) :: ids[i] < first
    requires ValidLayout(fields, layout) && At(fields, layout, at)
    requires forall i | 0 <= i < |ids| && ids[i] in at :: i in leadAt && leadAt[i] == at[ids[i]]
    ensures forall i | 0 <= i < |leading| && HasStorage(leading[i]) ::
              ids[i] < |fields| && ids[i] in at && i in leadAt && leadAt[i] == at[ids[i]]
              && Aligned(leadAt[i], LeadAlign(leading[i]))
    ensures forall i, j | 0 <= i < j < |leading| && HasStorage(leading[i]) && HasStorage(leading[j]) ::
              Apart(leadAt[i], leading[i].ty.size, leadAt[j], leading[j].ty.size)
    ensures HeadsPacked(leading, |leading|, leadAt)
  {
    hide ValidLayout, At, Aligned, HeadsPacked;
    forall i | 0 <= i < |leading| && HasStorage(leading[i])
      ensures ids[i] in at && Aligned(at[ids[i]], fields[ids[i]].align)
      ensures IsHead(leading[i]) ==> i in heads && at[ids[i]] == heads[i]
    {
      FieldIsAligned(fields, layout, at, ids[i]);
      if IsHead(leading[i]) { HeaderStays(fields, layout, at, ids[i]); }
    }
    forall i, j | 0 <= i < j < |leading| && HasStorage(leading[i]) && HasStorage(leading[j])
      ensures Apart(leadAt[i], leading[i].ty.size, leadAt[j], leading[j].ty.size)
    {
      PlacedApart(fields, layout, at, ids[i], ids[j]);
    }
    SameHeads(leading, heads, leadAt);
  }

  lemma HeaderStays(fields: seq<Field>, layout: seq<Placed>, at: map<nat, nat>, id: nat)
    requires ValidLayout(fields, layout) && At(fields, layout, at) && id < |fields| && IsHeader(fields[id])
    ensures id in at && at[id] == fields[id].offset.value
  {
    var i :| 0 <= i < |layout| && layout[i] == Placed(id, at[id]);
  }

  lemma SameHeads(leading: seq<Leading>, heads: map<nat, nat>, leadAt: map<nat, nat>)
    requires HeadsPacked(leading, |leading|, heads)
    requires forall i | 0 <= i < |leading| && IsHead(leading[i]) :: i in heads && i in leadAt && leadAt[i] == heads[i]
    ensures HeadsPacked(leading, |leading|, leadAt)
  {
    hide HeadPacked;
    forall i | 0 <= i < |leading| && IsHead(leading[i]) ensures HeadPacked(leading, i, leadAt) {
      HeadAgain(leading, i, heads, leadAt);
    }
  }

  /** Leading fields share no byte with allocas, which have later fields. */
  lemma LeadingApartFromAllocas(leading: seq<Leading>, ids: seq<nat>, heads: map<nat, nat>, allocas: seq<Alloca>,
                                interferes: (nat, nat) -> bool, slots: seq<seq<nat>>, allocaIds: map<nat, nat>,
                                bounds: seq<nat>, fields: seq<Field>, layout: seq<Placed>, at: map<nat, nat>,
                                allocaAt: map<nat, nat>)
    requires LeadingFields(leading, |leading|, ids, fields, heads)
    requires Partition(slots, |allocas|) && SlotsOk(allocas, interferes, slots)
    requires SlotFields(allocas, slots, allocaIds, fields, bounds) && |bounds| == |slots| + 1
    requires forall i | 0 <= i < |leading| && HasStorage(leading[i]) :: ids[i] < bounds[0] && ids[i] in at
    requires ValidLayout(fields, layout) && At(fields, layout, at)
    requires forall a | a in allocaIds && allocaIds[a] in at :: a in allocaAt && allocaAt[a] == at[allocaIds[a]]
    ensures forall i, a | 0 <= i < |leading| && HasStorage(leading[i]) && 0 <= a < |allocas| && allocas[a].size > 0 ::
              a in allocaAt && Apart(at[ids[i]], leading[i].ty.size, allocaAt[a], allocas[a].size)
  {
    hide Partition, SlotsOk, SlotFields, ValidLayout, Aligned, At, HeadsPacked, LeadAlign;
    forall i, a | 0 <= i < |leading| && HasStorage(leading[i]) && 0 <= a < |allocas| && allocas[a].size > 0
      ensures a in allocaAt && Apart(at[ids[i]], leading[i].ty.size, allocaAt[a], allocas[a].size)
    {
      AllocaPlaced(allocas, interferes, slots, allocaIds, fields, bounds, layout, at, a);
      AllocaPast(allocas, interferes, slots, allocaIds, fields, bounds, a);
      PlacedApart(fields, layout, at, ids[i], allocaIds[a]);
    }
  }

  lemma LeadingApartFromSpills(leading: seq<Leading>, ids: seq<nat>, heads: map<nat, nat>, spills: seq<Ty>,
                               spillIds: seq<nat>, cap: Option<Align>, from: nat, fields: seq<Field>,
                               layout: seq<Placed>, at: map<nat, nat>, spillAt: map<nat, nat>)
    requires LeadingFields(leading, |leading|, ids, fields, heads)
    requires forall i | 0 <= i < |leading| && HasStorage(leading[i]) :: ids[i] < from && ids[i] in at
    requires ValidLayout(fields, layout) && At(fields, layout, at)
    requires SpillFields(cap, spills, |spills|, spillIds, fields, from)
    requires forall s | 0 <= s < |spills| && spillIds[s] in at :: s in spillAt && spillAt[s] == at[spillIds[s]]
    ensures forall i, s | 0 <= i < |leading| && HasStorage(leading[i]) && 0 <= s < |spills| && spills[s].size > 0 ::
              s in spillAt && Apart(at[ids[i]], leading[i].ty.size, spillAt[s], spills[s].size)
  {
    hide ValidLayout, Aligned, At, HeadsPacked, LeadAlign;
    forall i, s | 0 <= i < |leading| && HasStorage(leading[i]) && 0 <= s < |spills| && spills[s].size > 0
      ensures s in spillAt && Apart(at[ids[i]], leading[i].ty.size, spillAt[s], spills[s].size)
    {
      IsAt(fields, layout, at, spillIds[s]);
      PlacedApart(fields, layout, at, ids[i], spillIds[s]);
    }
  }

  lemma FrameHasLeading(leading: seq<Leading>, ids: seq<nat>, heads: map<nat, nat>, allocas: seq<Alloca>,
                        interferes: (nat, nat) -> bool, slots: seq<seq<nat>>, allocaIds: map<nat, nat>,
                        bounds: seq<nat>, spills: seq<Ty>, spillIds: seq<nat>, cap: Option<Align>, fields: seq<Field>,
                        layout: seq<Placed>, at: map<nat, nat>, leadAt: map<nat, nat>, allocaAt: map<nat, nat>,
                        spillAt: map<nat, nat>)
    requires LeadingFields(leading, |leading|, ids, fields, heads)
    requires Partition(slots, |allocas|) && SlotsOk(allocas, interferes, slots)
    requires SlotFields(allocas, slots, allocaIds, fields, bounds) && |bounds| == |slots| + 1
    requires forall i | 0 <= i < |leading| && HasStorage(leading[i]) :: ids[i] < bounds[0]
    requires ValidLayout(fields, layout) && At(fields, layout, at)
    requires SpillFields(cap, spills, |spills|, spillIds, fields, bounds[|slots|]) && bounds[0] <= bounds[|slots|]
    requires forall i | 0 <= i < |ids| && ids[i] in at :: i in leadAt && leadAt[i] == at[ids[i]]
    requires forall a | a in allocaIds && allocaIds[a] in at :: a in allocaAt && allocaAt[a] == at[allocaIds[a]]
    requires forall s | 0 <= s < |spills| && spillIds[s] in at :: s in spillAt && spillAt[s] == at[spillIds[s]]
    ensures LeadingOk(leading, leadAt, allocas, allocaAt, spills, spillAt)
  {
    hide Partition, SlotsOk, SlotFields, ValidLayout, Aligned, At, HeadsPacked, LeadingFields, SpillFields, Apart;
    LeadingBelow(leading, ids, fields, heads);
    LeadingPlaced(leading, ids, heads, fields, layout, at, leadAt, bounds[0]);
    LeadingApartFromAllocas(leading, ids, heads, allocas, interferes, slots, allocaIds, bounds, fields, layout, at,
                            allocaAt);
    LeadingApartFromSpills(leading, ids, heads, spills, spillIds, cap, bounds[|slots|], fields, layout, at, spillAt);
  }

  lemma AllocaPast(allocas: seq<Alloca>, interferes: (nat, nat) -> bool, slots: seq<seq<nat>>, ids: map<nat, nat>,
                   fields: seq<Field>, bounds: seq<nat>, a: nat)
    requires Partition(slots, |allocas|) && SlotsOk(allocas, interferes, slots)
    requires SlotFields(allocas, slots, ids, fields, bounds) && |bounds| == |slots| + 1
    requires a < |allocas| && allocas[a].size > 0
    ensures a in ids && bounds[0] <= ids[a]
  {
    hide Partition, SlotsOk, SlotHasField;
    var s := SlotOf(allocas, interferes, slots, ids, fields, bounds, a);
  }

  /** Members of a slot have the same storage; different slots have storage apart. */
  ghost predicate Shared(allocas: seq<Alloca>, slots: seq<seq<nat>>, allocaAt: map<nat, nat>)
    requires Partition(slots, |allocas|)
  {
    forall s, t, a, b | 0 <= s < |slots| && 0 <= t < |slots| && a in slots[s] && b in slots[t]
                        && allocas[a].size > 0 && allocas[b].size > 0 ::
      a in allocaAt && b in allocaAt
      && if s == t then allocaAt[a] == allocaAt[b]
         else Apart(allocaAt[a], allocas[a].size, allocaAt[b], allocas[b].size)
  }

  lemma SlotsShared(allocas: seq<Alloca>, interferes: (nat, nat) -> bool, slots: seq<seq<nat>>, ids: map<nat, nat>,
                    bounds: seq<nat>, fields: seq<Field>, layout: seq<Placed>, at: map<nat, nat>,
                    allocaAt: map<nat, nat>)
    requires Partition(slots, |allocas|) && SlotsOk(allocas, interferes, slots)
    requires SlotFields(allocas, slots, ids, fields, bounds) && |bounds| == |slots| + 1
    requires ValidLayout(fields, layout) && At(fields, layout, at)
    requires forall a | a in ids && ids[a] in at :: a in allocaAt && allocaAt[a] == at[ids[a]]
    ensures Shared(allocas, slots, allocaAt)
  {
    hide Partition, SlotsOk, SlotFields, ValidLayout, Aligned, At;
    forall s, t, a, b | 0 <= s < |slots| && 0 <= t < |slots| && a in slots[s] && b in slots[t]
                        && a < |allocas| && b < |allocas| && allocas[a].size > 0 && allocas[b].size > 0
      ensures a in allocaAt && b in allocaAt
      ensures if s == t then allocaAt[a] == allocaAt[b]
              else Apart(allocaAt[a], allocas[a].size, allocaAt[b], allocas[b].size)
    {
      MemberField(allocas, interferes, slots, ids, fields, bounds, s, a);
      MemberField(allocas, interferes, slots, ids, fields, bounds, t, b);
      IsAt(fields, layout, at, ids[a]);
      IsAt(fields, layout, at, ids[b]);
      if s != t {
        BoundsApart(allocas, slots, ids, fields, bounds, s, t);
        PlacedApart(fields, layout, at, ids[a], ids[b]);
      }
    }
    MembersBelow(slots, |allocas|);
  }

  lemma MembersBelow(slots: seq<seq<nat>>, n: nat)
    requires Partition(slots, n)
    ensures forall s, x | 0 <= s < |slots| && x in slots[s] :: x < n
  {
  }

  lemma MemberField(allocas: seq<Alloca>, interferes: (nat, nat) -> bool, slots: seq<seq<nat>>, ids: map<nat, nat>,
                    fields: seq<Field>, bounds: seq<nat>, s: nat, a: nat)
    requires Partition(slots, |allocas|) && SlotsOk(allocas, interferes, slots)
    requires SlotFields(allocas, slots, ids, fields, bounds) && |bounds| == |slots| + 1
    requires s < |slots| && a in slots[s] && a < |allocas| && allocas[a].size > 0
    ensures a in ids && ids[a] == bounds[s] < |fields| && bounds[s + 1] == bounds[s] + 1
    ensures allocas[a].size <= fields[ids[a]].size
  {
    assert SlotOk(allocas, interferes, slots[s]);
    assert SlotHasField(allocas, slots[s], ids, fields, bounds[s], bounds[s + 1]);
  }

  /** Every offset suits the alignment the struct's types have, as far as the cap counts. */
  ghost predicate AllSuit(cap: Option<Align>, leading: seq<Leading>, leadAt: map<nat, nat>, allocas: seq<Alloca>,
                          slots: seq<seq<nat>>, allocaAt: map<nat, nat>, spills: seq<Ty>, spillAt: map<nat, nat>)
    requires Partition(slots, |allocas|)
  {
    (forall i | 0 <= i < |leading| && HasStorage(leading[i]) :: i in leadAt && Aligned(leadAt[i], leading[i].ty.abi))
    && (forall s | 0 <= s < |slots| && slots[s] != [] && slots[s][0] < |allocas| && allocas[slots[s][0]].size > 0 ::
          slots[s][0] in allocaAt && Aligned(allocaAt[slots[s][0]], allocas[slots[s][0]].abi))
    && (forall s | 0 <= s < |spills| && spills[s].size > 0 ::
          s in spillAt
          && Aligned(spillAt[s], if cap.Some? && cap.value < spills[s].abi then cap.value else spills[s].abi))
  }

  ghost predicate IsSlotId(bounds: seq<nat>, id: nat) {
    exists s :: 0 <= s < |bounds| - 1 && bounds[s] == id && bounds[s + 1] == id + 1
  }

  /** Which field it is. */
  lemma FieldIs(leading: seq<Leading>, leadIds: seq<nat>, allocas: seq<Alloca>, slots: seq<seq<nat>>,
                ids: map<nat, nat>, fields: seq<Field>, bounds: seq<nat>, spills: seq<Ty>, spillIds: seq<nat>, id: nat)
    requires SlotFields(allocas, slots, ids, fields, bounds) && |bounds| == |slots| + 1
    requires |leadIds| == |leading| && LeadingCover(leading, leadIds, bounds[0])
    requires |spillIds| == |spills| && SpillCover(spills, spillIds, bounds[|slots|], |fields|) && id < |fields|
    ensures IsLeadId(leading, leadIds, id) || IsSlotId(bounds, id) || IsSpillId(spills, spillIds, id)
  {
    hide SlotHasField, IsLeadId, IsSpillId;
    if bounds[0] <= id < bounds[|slots|] {
      var s := SlotAround(allocas, slots, ids, fields, bounds, id, |slots|);
      SlotIsOne(allocas, slots, ids, fields, bounds, s);
    }
  }

  lemma SlotIsOne(allocas: seq<Alloca>, slots: seq<seq<nat>>, ids: map<nat, nat>, fields: seq<Field>, bounds: seq<nat>,
                  s: nat)
    requires SlotFields(allocas, slots, ids, fields, bounds) && s < |bounds| - 1
    ensures bounds[s] <= bounds[s + 1] <= bounds[s] + 1
  {
    assert SlotHasField(allocas, slots[s], ids, fields, bounds[s], bounds[s + 1]);
  }

  lemma {:induction false} SlotAround(allocas: seq<Alloca>, slots: seq<seq<nat>>, ids: map<nat, nat>,
                                      fields: seq<Field>, bounds: seq<nat>, id: nat, n: nat) returns (s: nat)
    requires SlotFields(allocas, slots, ids, fields, bounds) && n < |bounds| && bounds[0] <= id < bounds[n]
    ensures s < n && bounds[s] <= id < bounds[s + 1]
  {
    hide SlotHasField;
    if id < bounds[n - 1] { s := SlotAround(allocas, slots, ids, fields, bounds, id, n - 1); } else { s := n - 1; }
  }

  /** All fields suit their types' alignment exactly if leading fields, slots and spills do. */
  lemma SuitsIff(cap: Option<Align>, leading: seq<Leading>, leadIds: seq<nat>, heads: map<nat, nat>,
                 allocas: seq<Alloca>, interferes: (nat, nat) -> bool, slots: seq<seq<nat>>, ids: map<nat, nat>,
                 bounds: seq<nat>, spills: seq<Ty>, spillIds: seq<nat>, fields: seq<Field>, layout: seq<Placed>,
                 at: map<nat, nat>, leadAt: map<nat, nat>, allocaAt: map<nat, nat>, spillAt: map<nat, nat>)
    requires Partition(slots, |allocas|) && SlotsOk(allocas, interferes, slots)
    requires SlotFields(allocas, slots, ids, fields, bounds) && |bounds| == |slots| + 1
    requires LeadingFields(leading, |leading|, leadIds, fields, heads) && LeadingCover(leading, leadIds, bounds[0])
    requires ValidLayout(fields, layout) && At(fields, layout, at)
    requires SpillFields(cap, spills, |spills|, spillIds, fields, bounds[|slots|])
    requires SpillCover(spills, spillIds, bounds[|slots|], |fields|)
    requires forall i | 0 <= i < |leadIds| && leadIds[i] in at :: i in leadAt && leadAt[i] == at[leadIds[i]]
    requires forall a | a in ids && ids[a] in at :: a in allocaAt && allocaAt[a] == at[ids[a]]
    requires forall s | 0 <= s < |spills| && spillIds[s] in at :: s in spillAt && spillAt[s] == at[spillIds[s]]
    ensures TypeAligned(fields, layout) <==> AllSuit(cap, leading, leadAt, allocas, slots, allocaAt, spills, spillAt)
  {
    hide Partition, SlotsOk, SlotFields, ValidLayout, Aligned, At, HeadsPacked, TypeAligned, LeadingCover, SpillCover;
    SuitsById(fields, layout, at);
    forall i | 0 <= i < |leading| && HasStorage(leading[i])
      ensures leadIds[i] in at && i in leadAt && leadAt[i] == at[leadIds[i]]
    {
      IsAt(fields, layout, at, leadIds[i]);
    }
    forall s | 0 <= s < |slots|
      ensures slots[s] != [] && slots[s][0] < |allocas|
      ensures allocas[slots[s][0]].size > 0 ==>
                bounds[s] < |fields| && bounds[s] in at && slots[s][0] in allocaAt
                && allocaAt[slots[s][0]] == at[bounds[s]] && fields[bounds[s]].tyAlign == allocas[slots[s][0]].abi
      ensures bounds[s + 1] == bounds[s] + 1 ==> allocas[slots[s][0]].size > 0
    {
      LeaderField(allocas, interferes, slots, ids, fields, bounds, s);
      if bounds[s] < |fields| { IsAt(fields, layout, at, bounds[s]); }
    }
    forall s | 0 <= s < |spills| && spills[s].size > 0
      ensures spillIds[s] in at && s in spillAt && spillAt[s] == at[spillIds[s]]
    {
      IsAt(fields, layout, at, spillIds[s]);
    }
    if AllSuit(cap, leading, leadAt, allocas, slots, allocaAt, spills, spillAt) {
      forall id: nat | id < |fields| ensures Suits(fields, at, id) {
        FieldIs(leading, leadIds, allocas, slots, ids, fields, bounds, spills, spillIds, id);
      }
    }
    if forall id: nat | id < |fields| :: Suits(fields, at, id) {
      forall i | 0 <= i < |leading| && HasStorage(leading[i]) ensures Aligned(leadAt[i], leading[i].ty.abi) {
        assert Suits(fields, at, leadIds[i]);
      }
      forall s | 0 <= s < |slots| && allocas[slots[s][0]].size > 0
        ensures Aligned(allocaAt[slots[s][0]], allocas[slots[s][0]].abi)
      {
        assert Suits(fields, at, bounds[s]);
      }
      forall s | 0 <= s < |spills| && spills[s].size > 0
        ensures Aligned(spillAt[s], TypeAlignment(cap, spills[s], true))
      {
        assert Suits(fields, at, spillIds[s]);
      }
    }
  }

  predicate Suits(fields: seq<Field>, at: map<nat, nat>, id: nat) {
    id < |fields| && id in at && Aligned(at[id], fields[id].tyAlign)
  }

  /** Every spill is at an offset that suits its type's own alignment. */
  ghost predicate SpillsSuit(spills: seq<Ty>, spillAt: map<nat, nat>) {
    forall s | 0 <= s < |spills| && spills[s].size > 0 :: s in spillAt && Aligned(spillAt[s], spills[s].abi)
  }

  /** Only spills are ever capped. */
  lemma NaturalIf(cap: Option<Align>, leading: seq<Leading>, leadIds: seq<nat>, heads: map<nat, nat>,
                  allocas: seq<Alloca>, interferes: (nat, nat) -> bool, slots: seq<seq<nat>>, ids: map<nat, nat>,
                  bounds: seq<nat>, spills: seq<Ty>, spillIds: seq<nat>, fields: seq<Field>, layout: seq<Placed>,
                  at: map<nat, nat>, spillAt: map<nat, nat>)
    requires SlotsOk(allocas, interferes, slots)
    requires SlotFields(allocas, slots, ids, fields, bounds) && |bounds| == |slots| + 1
    requires LeadingFields(leading, |leading|, leadIds, fields, heads) && LeadingCover(leading, leadIds, bounds[0])
    requires ValidLayout(fields, layout) && At(fields, layout, at)
    requires SpillFields(cap, spills, |spills|, spillIds, fields, bounds[|slots|])
    requires SpillCover(spills, spillIds, bounds[|slots|], |fields|)
    requires forall s | 0 <= s < |spills| && spillIds[s] in at :: s in spillAt && spillAt[s] == at[spillIds[s]]
    requires TypeAligned(fields, layout) && SpillsSuit(spills, spillAt)
    ensures NaturallyAligned(fields, layout)
  {
    hide SlotsOk, SlotFields, ValidLayout, Aligned, At, HeadsPacked, TypeAligned, LeadingCover, SpillCover;
    SuitsById(fields, layout, at);
    forall id: nat | id < |fields| ensures id in at && Aligned(at[id], fields[id].ty.abi) {
      assert Suits(fields, at, id);
      FieldIs(leading, leadIds, allocas, slots, ids, fields, bounds, spills, spillIds, id);
      if IsSlotId(bounds, id) {
        var s :| 0 <= s < |bounds| - 1 && bounds[s] == id && bounds[s + 1] == id + 1;
        SlotFieldNatural(allocas, interferes, slots, ids, fields, bounds, s);
      }
    }
    NaturalById(fields, layout, at);
  }

  lemma SlotFieldNatural(allocas: seq<Alloca>, interferes: (nat, nat) -> bool, slots: seq<seq<nat>>,
                         ids: map<nat, nat>, fields: seq<Field>, bounds: seq<nat>, s: nat)
    requires SlotsOk(allocas, interferes, slots)
    requires SlotFields(allocas, slots, ids, fields, bounds) && |bounds| == |slots| + 1 && s < |slots|
    requires bounds[s + 1] == bounds[s] + 1
    ensures bounds[s] < |fields| && fields[bounds[s]].tyAlign == fields[bounds[s]].ty.abi
  {
    assert SlotOk(allocas, interferes, slots[s]);
    assert SlotHasField(allocas, slots[s], ids, fields, bounds[s], bounds[s + 1]);
  }

  lemma NaturalById(fields: seq<Field>, layout: seq<Placed>, at: map<nat, nat>)
    requires ValidLayout(fields, layout) && At(fields, layout, at)
    requires forall id: nat | id < |fields| :: id in at && Aligned(at[id], fields[id].ty.abi)
    ensures NaturallyAligned(fields, layout)
  {
    hide Aligned;
    forall i | 0 <= i < |layout| ensures layout[i].id < |fields| && at[layout[i].id] == layout[i].offset {
      var k :| 0 <= k < |layout| && layout[k] == Placed(layout[i].id, at[layout[i].id]);
      assert k == i;
    }
  }

  lemma SuitsById(fields: seq<Field>, layout: seq<Placed>, at: map<nat, nat>)
    requires ValidLayout(fields, layout) && At(fields, layout, at)
    ensures forall id: nat | id < |fields| :: id in at
    ensures TypeAligned(fields, layout) <==> forall id: nat | id < |fields| :: Suits(fields, at, id)
  {
    hide Aligned;
    forall i | 0 <= i < |layout| ensures layout[i].id < |fields| && at[layout[i].id] == layout[i].offset {
      var k :| 0 <= k < |layout| && layout[k] == Placed(layout[i].id, at[layout[i].id]);
      assert k == i;
    }
    if TypeAligned(fields, layout) {
      forall id: nat | id < |fields| ensures Suits(fields, at, id) {
        assert Placed(id, at[id]) in layout;
        var i :| 0 <= i < |layout| && layout[i] == Placed(id, at[id]);
      }
    }
    if forall id: nat | id < |fields| :: Suits(fields, at, id) {
      forall i | 0 <= i < |layout| && layout[i].id < |fields|
        ensures Aligned(layout[i].offset, fields[layout[i].id].tyAlign)
      {
        assert Suits(fields, at, layout[i].id);
      }
    }
  }

  lemma LeaderField(allocas: seq<Alloca>, interferes: (nat, nat) -> bool, slots: seq<seq<nat>>, ids: map<nat, nat>,
                    fields: seq<Field>, bounds: seq<nat>, s: nat)
    requires SlotsOk(allocas, interferes, slots)
    requires SlotFields(allocas, slots, ids, fields, bounds) && |bounds| == |slots| + 1 && s < |slots|
    ensures slots[s] != [] && slots[s][0] < |allocas|
    ensures if allocas[slots[s][0]].size > 0
            then slots[s][0] in ids && ids[slots[s][0]] == bounds[s] < |fields| && bounds[s + 1] == bounds[s] + 1
                 && fields[bounds[s]].tyAlign == allocas[slots[s][0]].abi
            else bounds[s + 1] == bounds[s]
  {
    assert SlotOk(allocas, interferes, slots[s]);
    assert SlotHasField(allocas, slots[s], ids, fields, bounds[s], bounds[s + 1]);
    assert slots[s][0] in slots[s];
  }

  /** Lays out a whole coroutine frame with the given layout optimiser. `handed` are the field ids of
      leading fields, allocas and spills; they name fields of the frame unless all of these are empty. */
  method BuildFrame(cap: Option<Align>, leading: seq<Leading>, allocas: seq<Alloca>, interferes: (nat, nat) -> bool,
                    reuse: bool, spills: seq<Ty>, optimise: seq<Field> -> seq<Placed>, size: nat)
    returns (body: seq<Element>, packed: bool, leadAt: map<nat, nat>, allocaAt: map<nat, nat>, spillAt: map<nat, nat>,
             handed: seq<nat>, count: nat, ghost slots: seq<seq<nat>>, ghost order: seq<nat>)
    requires forall x, y :: interferes(x, y) == interferes(y, x)
    requires forall fields, end :: HeaderOk(fields, end) ==> ValidLayout(fields, optimise(fields))
    ensures FrameOk(cap, allocas, interferes, spills, allocaAt, spillAt)
    ensures LeadingOk(leading, leadAt, allocas, allocaAt, spills, spillAt)
    ensures Partition(slots, |allocas|) && Sharing(allocas, interferes, slots, order, reuse)
    ensures Shared(allocas, slots, allocaAt)
    ensures packed <==> !AllSuit(cap, leading, leadAt, allocas, slots, allocaAt, spills, spillAt)
    ensures cap.None? || packed || SpillsSuit(spills, spillAt) ==>
              StructHolds(body, packed, allocas, spills, allocaAt, spillAt)
              && forall i | 0 <= i < |leading| && HasStorage(leading[i]) ::
                   i in leadAt && HoldsAt(body, packed, leadAt[i], leading[i].ty)
    ensures |handed| == |leading| + |allocas| + |spills|
    ensures (forall i | 0 <= i < |handed| :: handed[i] < count)
       <==> NothingEmpty(leading, allocas, spills) || SomeStorage(leading, allocas, spills)
  {
    hide HoldsAt, Sharing, Shared, Partition, SlotsOk, SlotFields, ValidLayout, HeaderOk, SpillFields,
         FrameOk, At, TypeAligned, NaturallyAligned, InBody, Lands, BodyUpTo, StructHolds,
         NothingEmpty, Handed, FieldOk, InSomeSlot, SomeStorage, OffsetsOf, AsMap, LeadingFields,
         LeadingOk, LeadingCover, SpillCover, AllSuit, SpillsSuit, HasStorage;
    var builder := new FrameTypeBuilder(cap);
    var leadIds;
    ghost var heads;
    leadIds, heads := AddLeading(builder, leading);
    ghost var first := builder.fields;
    var ids, found, along;
    ghost var bounds;
    ids, found, along, bounds := builder.AddFieldForAllocas(allocas, interferes, reuse);
    slots, order := found, along;
    AllocaFields(allocas, interferes, slots, ids, builder.fields, bounds);
    ghost var between := builder.fields;
    var spillIds := AddSpills(builder, spills, |builder.fields|);
    MoreFieldsKeepSlots(allocas, slots, ids, between, bounds, builder.fields);
    MoreFieldsKeepLeading(leading, leadIds, first, heads, builder.fields);
    var allocaIds := seq(|allocas|, a requires 0 <= a < |allocas| && a in ids => ids[a]);
    handed, count := leadIds + allocaIds + spillIds, |builder.fields|;
    HandedTogether(leadIds, allocaIds, spillIds, bounds[0], count);
    StorageTogether(leading, allocas, spills, bounds[0], |between|, count);
    HandedInRange(leading, allocas, spills, handed, count);
    ghost var given := builder.fields;
    assert HeaderOk(given, builder.structSize);
    var layout := optimise(builder.fields);
    body, packed := builder.Finish(layout, size);
    ghost var at := FinishedAt(given, layout, builder.fields);
    allocaAt, spillAt := OffsetsOf(ids, builder.fields), OffsetsOf(AsMap(spillIds), builder.fields);
    leadAt := OffsetsOf(AsMap(leadIds), builder.fields);
    SpillOffsetsAt(leadIds, builder.fields, at);
    OffsetsAt(ids, builder.fields, at);
    SpillOffsetsAt(spillIds, builder.fields, at);
    FrameFromFields(cap, allocas, interferes, spills, slots, ids, bounds, spillIds, given, layout, at, allocaAt,
                    spillAt);
    SlotsShared(allocas, interferes, slots, ids, bounds, given, layout, at, allocaAt);
    LeadingBelow(leading, leadIds, first, heads);
    BoundsRise(allocas, slots, ids, given, bounds);
    FrameHasLeading(leading, leadIds, heads, allocas, interferes, slots, ids, bounds, spills, spillIds, cap, given,
                    layout, at, leadAt, allocaAt, spillAt);
    SuitsIff(cap, leading, leadIds, heads, allocas, interferes, slots, ids, bounds, spills, spillIds, given, layout, at,
             leadAt, allocaAt, spillAt);
    if !packed && SpillsSuit(spills, spillAt) {
      NaturalIf(cap, leading, leadIds, heads, allocas, interferes, slots, ids, bounds, spills, spillIds, given, layout,
                at, spillAt);
    }
    if cap.None? || packed || SpillsSuit(spills, spillAt) {
      FieldsInStruct(given, layout, builder.fields, body, packed);
      FrameInStruct(cap, allocas, interferes, spills, slots, ids, bounds, spillIds, given, body, packed, at,
                    allocaAt, spillAt);
      LeadingInStruct(leading, leadIds, given, heads, body, packed, at, leadAt);
    }
  }

  lemma LeadingBelow(leading: seq<Leading>, ids: seq<nat>, fields: seq<Field>, heads: map<nat, nat>)
    requires LeadingFields(leading, |leading|, ids, fields, heads)
    ensures |ids| == |leading| && forall i | 0 <= i < |leading| && HasStorage(leading[i]) :: ids[i] < |fields|
  {
  }

  lemma BoundsRise(allocas: seq<Alloca>, slots: seq<seq<nat>>, ids: map<nat, nat>, fields: seq<Field>, bounds: seq<nat>)
    requires SlotFields(allocas, slots, ids, fields, bounds) && |bounds| == |slots| + 1
    ensures bounds[0] <= bounds[|slots|]
  {
  }

  lemma LeadingInStruct(leading: seq<Leading>, ids: seq<nat>, given: seq<Field>, heads: map<nat, nat>,
                        body: seq<Element>, packed: bool, at: map<nat, nat>, leadAt: map<nat, nat>)
    requires LeadingFields(leading, |leading|, ids, given, heads)
    requires forall id | 0 <= id < |given| :: id in at && HoldsAt(body, packed, at[id], given[id].ty)
    requires forall i | 0 <= i < |ids| && ids[i] in at :: i in leadAt && leadAt[i] == at[ids[i]]
    ensures forall i | 0 <= i < |leading| && HasStorage(leading[i]) ::
              i in leadAt && HoldsAt(body, packed, leadAt[i], leading[i].ty)
  {
    hide HoldsAt, HeadsPacked;
  }

  lemma StorageTogether(leading: seq<Leading>, allocas: seq<Alloca>, spills: seq<Ty>, first: nat, second: nat,
                        count: nat)
    requires first > 0 <==> exists k :: 0 <= k < |leading| && leading[k].ty.size > 0
    requires first <= second && (second > first <==> exists a :: 0 <= a < |allocas| && allocas[a].size > 0)
    requires second <= count && (count > second <==> exists s :: 0 <= s < |spills| && spills[s].size > 0)
    ensures count > 0 <==> SomeStorage(leading, allocas, spills)
  {
  }

  lemma OffsetsAt(ids: map<nat, nat>, fields: seq<Field>, at: map<nat, nat>)
    requires forall id | id in at :: id < |fields| && fields[id].offset == Some(at[id])
    ensures forall a | a in ids && ids[a] in at ::
            a in OffsetsOf(ids, fields) && OffsetsOf(ids, fields)[a] == at[ids[a]]
  {
  }

  lemma SpillOffsetsAt(ids: seq<nat>, fields: seq<Field>, at: map<nat, nat>)
    requires forall id | id in at :: id < |fields| && fields[id].offset == Some(at[id])
    ensures forall s | 0 <= s < |ids| && ids[s] in at ::
              s in OffsetsOf(AsMap(ids), fields) && OffsetsOf(AsMap(ids), fields)[s] == at[ids[s]]
  {
  }

  lemma HandedTogether(lead: seq<nat>, allocas: seq<nat>, spills: seq<nat>, first: nat, count: nat)
    requires Handed(lead, first) && Handed(spills, count) && first <= count
    requires forall i | 0 <= i < |allocas| :: allocas[i] == 0 || allocas[i] < count
    ensures Handed(lead + allocas + spills, count)
  {
  }

  /** With ids that are 0 or in range, all are in range exactly if there is none or there is a field. */
  lemma HandedInRange(leading: seq<Leading>, allocas: seq<Alloca>, spills: seq<Ty>, handed: seq<nat>, count: nat)
    requires |handed| == |leading| + |allocas| + |spills| && Handed(handed, count)
    requires count > 0 <==> SomeStorage(leading, allocas, spills)
    ensures (forall i | 0 <= i < |handed| :: handed[i] < count)
       <==> NothingEmpty(leading, allocas, spills) || SomeStorage(leading, allocas, spills)
  {
    if count == 0 && handed != [] {
      assert handed[0] >= count;
      assert !NothingEmpty(leading, allocas, spills) by {
        if leading != [] {
          assert leading[0].ty.size == 0;
        } else if allocas != [] {
          assert allocas[0].size == 0;
        } else {
          assert spills[0].size == 0;
        }
      }
    }
  }

  /** The struct's own layout has a field of this type at this offset. */
  ghost predicate HoldsAt(body: seq<Element>, packed: bool, offset: nat, ty: Ty) {
    exists k :: 0 <= k < |body| && body[k] == Body(ty) && ElementOffset(body, packed, k) == offset
  }

  /** The struct has each spill's type at its place, and at each alloca's place the type of an alloca
      at least as large and as aligned. */
  ghost predicate StructHolds(body: seq<Element>, packed: bool, allocas: seq<Alloca>, spills: seq<Ty>,
                              allocaAt: map<nat, nat>, spillAt: map<nat, nat>) {
    (forall s | 0 <= s < |spills| && spills[s].size > 0 :: s in spillAt && HoldsAt(body, packed, spillAt[s], spills[s]))
    && forall a | 0 <= a < |allocas| && allocas[a].size > 0 ::
         a in allocaAt && exists b ::
           0 <= b < |allocas| && allocas[b].size >= allocas[a].size
           && allocas[b].align >= allocas[a].align
           && HoldsAt(body, packed, allocaAt[a], Ty(allocas[b].size, allocas[b].abi))
  }

  lemma FieldsInStruct(given: seq<Field>, layout: seq<Placed>, fields: seq<Field>, body: seq<Element>, packed: bool)
    requires ValidLayout(given, layout) && |fields| == |given|
    requires forall id | 0 <= id < |fields| :: fields[id].ty == given[id].ty
    requires forall i | 0 <= i < |layout| ::
               layout[i].id < |fields| && InBody(body, fields[layout[i].id])
                 && Lands(body, packed, fields[layout[i].id])
    ensures forall id | 0 <= id < |fields| ::
            fields[id].offset.Some? && HoldsAt(body, packed, fields[id].offset.value, given[id].ty)
  {
    hide ValidLayout, ElementOffset;
    forall id | 0 <= id < |fields|
      ensures fields[id].offset.Some? && HoldsAt(body, packed, fields[id].offset.value, given[id].ty)
    {
      EveryFieldPlaced(given, layout, id);
    }
  }

  lemma FrameInStruct(cap: Option<Align>, allocas: seq<Alloca>, interferes: (nat, nat) -> bool, spills: seq<Ty>,
                      slots: seq<seq<nat>>, ids: map<nat, nat>, bounds: seq<nat>, spillIds: seq<nat>,
                      given: seq<Field>, body: seq<Element>, packed: bool, at: map<nat, nat>, allocaAt: map<nat, nat>,
                      spillAt: map<nat, nat>)
    requires Partition(slots, |allocas|) && SlotsOk(allocas, interferes, slots)
    requires SlotFields(allocas, slots, ids, given, bounds) && |bounds| == |slots| + 1
    requires SpillFields(cap, spills, |spills|, spillIds, given, bounds[|slots|])
    requires forall id | 0 <= id < |given| :: id in at && HoldsAt(body, packed, at[id], given[id].ty)
    requires forall a | a in ids && ids[a] in at :: a in allocaAt && allocaAt[a] == at[ids[a]]
    requires forall s | 0 <= s < |spills| && spillIds[s] in at :: s in spillAt && spillAt[s] == at[spillIds[s]]
    ensures StructHolds(body, packed, allocas, spills, allocaAt, spillAt)
  {
    hide HoldsAt, Partition, SlotsOk, SlotHasField;
    forall a | 0 <= a < |allocas| && allocas[a].size > 0
      ensures a in allocaAt && exists b ::
              0 <= b < |allocas| && allocas[b].size >= allocas[a].size
              && allocas[b].align >= allocas[a].align
              && HoldsAt(body, packed, allocaAt[a], Ty(allocas[b].size, allocas[b].abi))
    {
      var s := SlotOf(allocas, interferes, slots, ids, given, bounds, a);
      var b := SlotLeader(allocas, interferes, slots, ids, given, bounds, s, a);
      assert HoldsAt(body, packed, allocaAt[a], Ty(allocas[b].size, allocas[b].abi));
    }
  }

  /** An alloca's field has the type of its slot's first member. */
  lemma SlotLeader(allocas: seq<Alloca>, interferes: (nat, nat) -> bool, slots: seq<seq<nat>>, ids: map<nat, nat>,
                   fields: seq<Field>, bounds: seq<nat>, s: nat, a: nat)
    returns (b: nat)
    requires SlotsOk(allocas, interferes, slots) && SlotFields(allocas, slots, ids, fields, bounds)
             && |bounds| == |slots| + 1
    requires s < |slots| && a in slots[s] && a < |allocas| && allocas[a].size > 0 && a in ids && ids[a] < |fields|
    ensures b < |allocas| && allocas[b].size >= allocas[a].size && allocas[b].align >= allocas[a].align
    ensures fields[ids[a]].ty == Ty(allocas[b].size, allocas[b].abi)
  {
    assert SlotOk(allocas, interferes, slots[s]);
    assert SlotHasField(allocas, slots[s], ids, fields, bounds[s], bounds[s + 1]);
    b := slots[s][0];
  }

  lemma NoSpills(cap: Option<Align>, spills: seq<Ty>, fields: seq<Field>, from: nat)
    ensures SpillFields(cap, spills, 0, [], fields, from)
  {
  }

  // ----- a capped spill -----

  const SMALL: Ty := Ty(4, 2)

  const WIDE: Ty := Ty(8, 3)

  /** An alloca of 4 bytes that wants 8 bytes of alignment, and a spill of an 8-byte type that does
      too, but is capped to 4: placed most aligned first, they get offsets 0 and 4. The struct stays
      unpacked, and its own layout puts the spill at 8. */
  method CappedSpillMisplaced() returns (body: seq<Element>, packed: bool, fields: seq<Field>)
    ensures |fields| == 2 && fields[0].align == 3 && fields[1].ty == WIDE
    ensures fields[0].offset == Some(0) && fields[1].offset == Some(4)
    ensures !packed && body == [Body(SMALL), Body(WIDE)] && fields[1].layoutIndex == 1
    ensures ElementOffset(body, packed, 1) == 8
  {
    hide Sharing, HeaderOk, ElementOffset, Bytes;
    var alloca := Alloca(4, 2, 3);
    var builder := new FrameTypeBuilder(Some(2));
    var ids, slots, order;
    ghost var bounds;
    ids, slots, order, bounds := builder.AddFieldForAllocas([alloca], (x, y) => false, false);
    OneSlot(alloca, slots, ids, builder.fields, bounds);
    var id := builder.AddField(WIDE, None, false, true);
    var layout := [Placed(0, 0), Placed(1, 4)];
    FirstPowers();
    ghost var given := builder.fields;
    assert ValidLayout(given, layout);
    body, packed := builder.Finish(layout, 12);
    fields := builder.fields;
    assert TypeAligned(given, layout);
    TwoFields(given, layout);
    WideAfterSmall();
    assert fields[layout[0].id] == fields[0] && fields[layout[1].id] == fields[1];
  }

  lemma {:induction false} OneSlot(alloca: Alloca, slots: seq<seq<nat>>, ids: map<nat, nat>, fields: seq<Field>,
                                   bounds: seq<nat>)
    requires Partition(slots, 1) && alloca.size > 0 && |bounds| == |slots| + 1 && bounds[0] == 0
             && bounds[|slots|] == |fields|
    requires SlotFields([alloca], slots, ids, fields, bounds)
    ensures |fields| == 1 && IsSlotField(fields[0], alloca)
  {
    assert InSomeSlot(slots, 0);
    var s :| 0 <= s < |slots| && 0 in slots[s];
    var last := |slots| - 1;
    assert slots[0][0] in slots[0] && slots[last][0] in slots[last];
    assert 0 in slots[0] && 0 in slots[last];
    assert |slots| == 1;
    assert SlotHasField([alloca], slots[0], ids, fields, bounds[0], bounds[1]);
  }

  lemma {:induction false} TwoFields(given: seq<Field>, layout: seq<Placed>)
    requires |given| == 2 && given[0].ty == SMALL && given[0].size == 4 && given[1].ty == WIDE
    requires layout == [Placed(0, 0), Placed(1, 4)] && ValidLayout(given, layout)
    ensures BodyUpTo(given, layout, false, 2) == [Body(SMALL), Body(WIDE)]
  {
    hide ValidLayout;
    assert BodyUpTo(given, layout, false, 0) == [];
    assert EndBefore(given, layout, 0) == 0 && EndBefore(given, layout, 1) == 4;
    assert BodyUpTo(given, layout, false, 1) == [Body(SMALL)];
  }

  lemma {:induction false} FirstPowers()
    ensures Bytes(0) == 1 && Bytes(2) == 4 && Bytes(3) == 8
  {
    assert Pow2(0) == 1 && Pow2(1) == 2 && Pow2(2) == 4 && Pow2(3) == 8;
  }

  lemma {:induction false} WideAfterSmall()
    ensures ElementOffset([Body(SMALL), Body(WIDE)], false, 1) == 8
  {
    hide Bytes, AlignTo;
    FirstPowers();
    AlignToIs(0, 2, 0);
    AlignToIs(4, 3, 8);
    var one, body := [Body(SMALL)], [Body(SMALL), Body(WIDE)];
    assert body[..2] == body && body[..1] == one && one[..0] == [];
    assert EndOf([], false) == 0;
    assert LastOffset(one, false) == 0;
    assert EndOf(one, false) == 4;
    assert LastOffset(body, false) == 8;
  }
}
